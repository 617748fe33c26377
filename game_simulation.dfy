/**
 * The deck and search operations of the simulator: the meta-deck catalog,
 * the guess at the opponent's deck from the cards on its board, preset
 * decks, the opening hand and the decision-tree search. The global
 * catalog `allMetaDecks` is passed in and returned.
 */
module GameSimulation {
  import opened Wrappers
  import opened TokenUtils
  import opened Cards
  import opened SeqFacts
  import FileParser

  /** Constants.h: the number of cards of the opening hand. */
  const INITIAL_HAND_SIZE: nat := 5

  // ---------------------------------------------------------------------
  // loadAllMetaDecks
  // ---------------------------------------------------------------------

  /** The catalog reader's state: the text of the deck being read and the decks completed. */
  datatype CatalogScan = CatalogScan(current: string, decks: seq<string>)

  /**
   * One trimmed line: BEGIN_DECK clears the text, END_DECK stores it (and
   * keeps it), any other line is added to it with a newline.
   */
  function ScanLine(st: CatalogScan, line: string): (r: CatalogScan)
    ensures st.decks <= r.decks
  {
    if line == "BEGIN_DECK" then CatalogScan("", st.decks)
    else if line == "END_DECK" then CatalogScan(st.current, st.decks + [st.current])
    else CatalogScan(st.current + line + "\n", st.decks)
  }

  /** The state after reading `lines`, each trimmed first. */
  function ScanCatalog(lines: seq<string>): (st: CatalogScan)
  {
    if lines == [] then CatalogScan("", [])
    else ScanLine(ScanCatalog(lines[..|lines| - 1]), Trim(lines[|lines| - 1]))
  }

  /** The number of lines that trim to END_DECK. */
  function EndDeckCount(lines: seq<string>): nat
  {
    if lines == [] then 0
    else EndDeckCount(lines[..|lines| - 1]) + (if Trim(lines[|lines| - 1]) == "END_DECK" then 1 else 0)
  }

  /** Every END_DECK line adds one deck, and no other line does. */
  lemma {:induction false} DeckPerEndLine(lines: seq<string>)
    ensures |ScanCatalog(lines).decks| == EndDeckCount(lines)
    decreases |lines|
  {
    if lines != [] {
      DeckPerEndLine(lines[..|lines| - 1]);
    }
  }

  /** The text of deck lines: each trimmed and followed by a newline. */
  function DeckText(body: seq<string>): string
  {
    if body == [] then ""
    else DeckText(body[..|body| - 1]) + Trim(body[|body| - 1]) + "\n"
  }

  /** No line of `body` trims to a deck marker. */
  predicate NoMarkers(body: seq<string>) {
    forall k :: 0 <= k < |body| ==> Trim(body[k]) != "BEGIN_DECK" && Trim(body[k]) != "END_DECK"
  }

  /** A BEGIN_DECK line starts an empty deck text, with the completed decks kept. */
  lemma BeginDeckClears(lines: seq<string>)
    ensures ScanCatalog(lines + ["BEGIN_DECK"]) == CatalogScan("", ScanCatalog(lines).decks)
  {
    TakeFront(lines, "BEGIN_DECK");
    TrimUnpadded("BEGIN_DECK");
  }

  /** After BEGIN_DECK, the lines that follow are gathered as the deck's text. */
  lemma {:induction false} DeckBodyGathered(lines: seq<string>, body: seq<string>)
    requires NoMarkers(body)
    ensures ScanCatalog(lines + ["BEGIN_DECK"] + body) == CatalogScan(DeckText(body), ScanCatalog(lines).decks)
    decreases |body|
  {
    if body == [] {
      assert lines + ["BEGIN_DECK"] + body == lines + ["BEGIN_DECK"];
      BeginDeckClears(lines);
    } else {
      var front, last := body[..|body| - 1], body[|body| - 1];
      assert NoMarkers(front) by {
        forall k | 0 <= k < |front| ensures Trim(front[k]) != "BEGIN_DECK" && Trim(front[k]) != "END_DECK" {
          assert front[k] == body[k];
        }
      }
      DeckBodyGathered(lines, front);
      var all := lines + ["BEGIN_DECK"] + body;
      DropLastOfAppend(lines + ["BEGIN_DECK"], body);
      assert all[..|all| - 1] == lines + ["BEGIN_DECK"] + front;
    }
  }

  /** A BEGIN_DECK ... END_DECK section adds exactly the text of its inner lines. */
  lemma DeckSectionRecorded(lines: seq<string>, body: seq<string>)
    requires NoMarkers(body)
    ensures ScanCatalog(lines + ["BEGIN_DECK"] + body + ["END_DECK"]).decks
              == ScanCatalog(lines).decks + [DeckText(body)]
  {
    DeckBodyGathered(lines, body);
    TakeFront(lines + ["BEGIN_DECK"] + body, "END_DECK");
    TrimUnpadded("END_DECK");
  }

  /** The loop invariant of LoadAllMetaDecks carried over one line. */
  lemma CatalogStep(lines: seq<string>, i: nat, st: CatalogScan)
    requires i < |lines| && st == ScanCatalog(lines[..i])
    ensures ScanLine(st, Trim(lines[i])) == ScanCatalog(lines[..i + 1])
  {
    TakeOneMore(lines, i);
    TakeFront(lines[..i], lines[i]);
  }

  /**
   * GameSimulation.cpp `loadAllMetaDecks`: the decks of the file are added
   * after those already in the catalog. `file` is None when the file cannot
   * be opened; the catalog is then left as it was.
   */
  method LoadAllMetaDecks(file: Option<string>, allMetaDecks: seq<string>) returns (catalog: seq<string>)
    ensures file.None? ==> catalog == allMetaDecks
    ensures file.Some? ==> catalog == allMetaDecks + ScanCatalog(Fields(file.value, '\n')).decks
  {
    catalog := allMetaDecks;
    if file.None? {
      return;
    }
    var lines := Fields(file.value, '\n');
    var currentDeck := "";
    ghost var added: seq<string> := [];
    var i := 0;
    while i < |lines|
      invariant 0 <= i <= |lines|
      invariant catalog == allMetaDecks + added
      invariant CatalogScan(currentDeck, added) == ScanCatalog(lines[..i])
    {
      CatalogStep(lines, i, CatalogScan(currentDeck, added));
      var line := Trim(lines[i]);
      if line == "BEGIN_DECK" {
        currentDeck := "";
      } else if line == "END_DECK" {
        AppendAssoc(allMetaDecks, added, [currentDeck]);
        catalog := catalog + [currentDeck];
        added := added + [currentDeck];
      } else {
        currentDeck := currentDeck + line + "\n";
      }
      i := i + 1;
    }
    assert lines[..i] == lines;
  }

  // ---------------------------------------------------------------------
  // filterMetaDecksByVisibleBoard
  // ---------------------------------------------------------------------

  /**
   * The card a line of a deck's text names, lower-cased: the first of
   * exactly two comma fields. Blank lines and the deck markers name none.
   */
  function LineCardName(line: string): (r: Option<string>)
    ensures r.Some? ==> r.value == ToLower(r.value)
  {
    var l := Trim(line);
    if l == [] || l == "BEGIN_DECK" || l == "END_DECK" then None
    else
      var tokens := SplitAndTrim(l, ',');
      if |tokens| == 2 then (ToLowerIdempotent(tokens[0]); Some(ToLower(tokens[0]))) else None
  }

  /** The names the lines of a deck's text give. */
  function NamesOfLines(lines: seq<string>): set<string>
  {
    if lines == [] then {}
    else NamesOfLines(lines[..|lines| - 1]) + (match LineCardName(lines[|lines| - 1])
                                                 case Some(n) => {n}
                                                 case None => {})
  }

  /** The name a line gives belongs to the deck. */
  lemma {:induction false} NameFromLine(lines: seq<string>, k: nat, n: string)
    requires k < |lines| && LineCardName(lines[k]) == Some(n)
    ensures n in NamesOfLines(lines)
    decreases |lines|
  {
    if k < |lines| - 1 {
      var front := lines[..|lines| - 1];
      assert front[k] == lines[k];
      NameFromLine(front, k, n);
    }
  }

  /** A name of the deck is given by one of its lines. */
  lemma {:induction false} LineOfName(lines: seq<string>, n: string) returns (k: nat)
    requires n in NamesOfLines(lines)
    ensures k < |lines| && LineCardName(lines[k]) == Some(n)
    decreases |lines|
  {
    var front := lines[..|lines| - 1];
    if n in NamesOfLines(front) {
      k := LineOfName(front, n);
      assert front[k] == lines[k];
    } else {
      k := |lines| - 1;
      var last := LineCardName(lines[k]);
      assert NamesOfLines(lines) == NamesOfLines(front) + if last.Some? then {last.value} else {};
    }
  }

  /** The lower-cased card names of a deck's text. */
  function DeckPokemons(deck: string): set<string>
  {
    NamesOfLines(Fields(deck, '\n'))
  }

  /** Every visible name, lower-cased, is a card of the deck. */
  predicate ShowsAll(deck: string, visible: seq<string>) {
    forall k :: 0 <= k < |visible| ==> ToLower(visible[k]) in DeckPokemons(deck)
  }

  /** The test the filter applies to each deck. */
  function ShowsAllOf(visible: seq<string>): string -> bool
  {
    deck => ShowsAll(deck, visible)
  }

  /** The decks of the catalog that hold every visible card, in catalog order. */
  function MatchingDecks(catalog: seq<string>, visible: seq<string>): seq<string>
  {
    Filter(catalog, ShowsAllOf(visible))
  }

  /**
   * Each catalog entry is kept at most once, exactly when it holds every
   * visible card: a deck occurs in the matches as often as in the catalog
   * if it holds them all, and not at all otherwise.
   */
  lemma MatchingCount(catalog: seq<string>, visible: seq<string>, deck: string)
    ensures multiset(MatchingDecks(catalog, visible))[deck]
              == if ShowsAll(deck, visible) then multiset(catalog)[deck] else 0
  {
    FilterCount(catalog, ShowsAllOf(visible), deck);
  }

  /** With nothing visible, every deck is kept. */
  lemma EmptyBoardKeepsAll(catalog: seq<string>)
    ensures MatchingDecks(catalog, []) == catalog
  {
    FilterAll(catalog, ShowsAllOf([]));
  }

  /** What the filter returns: the matching decks, or the whole catalog when none matches. */
  function FilteredDecks(visible: seq<string>, catalog: seq<string>): (r: seq<string>)
    ensures catalog != [] ==> r != []
  {
    var m := MatchingDecks(catalog, visible);
    if m == [] then catalog else m
  }

  /** When some deck holds every visible card, only such decks are returned. */
  lemma FilteredDecksShowAll(visible: seq<string>, catalog: seq<string>, k: nat)
    requires k < |catalog| && ShowsAll(catalog[k], visible)
    ensures forall j :: 0 <= j < |FilteredDecks(visible, catalog)| ==>
              ShowsAll(FilteredDecks(visible, catalog)[j], visible)
  {
    var m := MatchingDecks(catalog, visible);
    MatchingCount(catalog, visible, catalog[k]);
    assert multiset(catalog)[catalog[k]] > 0;
    forall j | 0 <= j < |m| ensures ShowsAll(m[j], visible) {
      MatchingCount(catalog, visible, m[j]);
      assert m[j] in multiset(m);
    }
  }

  /** When no deck holds every visible card, the whole catalog is returned. */
  lemma FilteredDecksFallback(visible: seq<string>, catalog: seq<string>)
    requires forall k :: 0 <= k < |catalog| ==> !ShowsAll(catalog[k], visible)
    ensures FilteredDecks(visible, catalog) == catalog
  {
    var m := MatchingDecks(catalog, visible);
    if m != [] {
      MatchingCount(catalog, visible, m[0]);
      assert false;
    }
  }

  /** The names loop of the filter, carried over one line. */
  lemma NamesStep(lines: seq<string>, i: nat)
    requires i < |lines|
    ensures NamesOfLines(lines[..i + 1]) ==
      NamesOfLines(lines[..i]) + (match LineCardName(lines[i]) case Some(n) => {n} case None => {})
  {
    TakeOneMore(lines, i);
    TakeFront(lines[..i], lines[i]);
  }

  /** The name set the filter builds for one deck. */
  method CollectDeckPokemons(deck: string) returns (deckPokemons: set<string>)
    ensures deckPokemons == DeckPokemons(deck)
  {
    var lines := Fields(deck, '\n');
    deckPokemons := {};
    var i := 0;
    while i < |lines|
      invariant 0 <= i <= |lines|
      invariant deckPokemons == NamesOfLines(lines[..i])
    {
      NamesStep(lines, i);
      var line := Trim(lines[i]);
      i := i + 1;
      if line == [] || line == "BEGIN_DECK" || line == "END_DECK" {
        continue;
      }
      var tokens := SplitAndTrim(line, ',');
      if |tokens| == 2 {
        deckPokemons := deckPokemons + {ToLower(tokens[0])};
      }
    }
    assert lines[..i] == lines;
  }

  /** The superset test, leaving at the first visible name the deck lacks. */
  method AllVisibleIn(deckPokemons: set<string>, visible: seq<string>) returns (allMatch: bool)
    ensures allMatch <==> forall k :: 0 <= k < |visible| ==> ToLower(visible[k]) in deckPokemons
  {
    allMatch := true;
    var i := 0;
    while i < |visible|
      invariant 0 <= i <= |visible|
      invariant forall k :: 0 <= k < i ==> ToLower(visible[k]) in deckPokemons
    {
      if ToLower(visible[i]) !in deckPokemons {
        allMatch := false;
        break;
      }
      i := i + 1;
    }
  }

  /** The filter loop's invariant carried over one deck. */
  lemma MatchingStep(catalog: seq<string>, visible: seq<string>, i: nat)
    requires i < |catalog|
    ensures MatchingDecks(catalog[..i + 1], visible) ==
      MatchingDecks(catalog[..i], visible) + (if ShowsAll(catalog[i], visible) then [catalog[i]] else [])
  {
    TakeOneMore(catalog, i);
    FilterSnoc(catalog[..i], catalog[i], ShowsAllOf(visible));
  }

  /**
   * GameSimulation.cpp `filterMetaDecksByVisibleBoard`, run on one thread:
   * the decks holding every visible card in catalog order, or the whole
   * catalog when there is none.
   */
  method FilterMetaDecksByVisibleBoard(visiblePokemons: seq<string>, allMetaDecks: seq<string>)
    returns (filteredDecks: seq<string>)
    ensures filteredDecks == FilteredDecks(visiblePokemons, allMetaDecks)
  {
    filteredDecks := [];
    var i := 0;
    while i < |allMetaDecks|
      invariant 0 <= i <= |allMetaDecks|
      invariant filteredDecks == MatchingDecks(allMetaDecks[..i], visiblePokemons)
    {
      MatchingStep(allMetaDecks, visiblePokemons, i);
      var deck := allMetaDecks[i];
      var deckPokemons := CollectDeckPokemons(deck);
      var allMatch := AllVisibleIn(deckPokemons, visiblePokemons);
      if allMatch {
        filteredDecks := filteredDecks + [deck];
      }
      i := i + 1;
    }
    assert allMetaDecks[..i] == allMetaDecks;
    if filteredDecks == [] {
      return allMetaDecks;
    }
  }

  // ---------------------------------------------------------------------
  // updateMetaDeckGuesses
  // ---------------------------------------------------------------------

  /** The opponent's visible cards: the active card, then the bench in order. */
  function VisibleNames(state: GameState): (v: seq<string>)
    ensures |v| == 1 + |state.opponentBench| && v[0] == state.opponentActivePokemon.name
    ensures forall k :: 0 <= k < |state.opponentBench| ==> v[k + 1] == state.opponentBench[k].name
  {
    var bench := state.opponentBench;
    [state.opponentActivePokemon.name] + seq(|bench|, k requires 0 <= k < |bench| => bench[k].name)
  }

  /**
   * GameSimulation.cpp `updateMetaDeckGuesses`: only the guesses change,
   * to the catalog decks that fit the opponent's visible cards.
   */
  method UpdateMetaDeckGuesses(state: GameState, allMetaDecks: seq<string>) returns (s: GameState)
    ensures s == state.(oppMetaDeckGuesses := FilteredDecks(VisibleNames(state), allMetaDecks))
  {
    var visiblePokemons := [state.opponentActivePokemon.name];
    var i := 0;
    while i < |state.opponentBench|
      invariant 0 <= i <= |state.opponentBench|
      invariant |visiblePokemons| == 1 + i && visiblePokemons[0] == state.opponentActivePokemon.name
      invariant forall k :: 0 <= k < i ==> visiblePokemons[k + 1] == state.opponentBench[k].name
    {
      visiblePokemons := visiblePokemons + [state.opponentBench[i].name];
      i := i + 1;
    }
    assert visiblePokemons == VisibleNames(state);
    var guesses := FilterMetaDecksByVisibleBoard(visiblePokemons, allMetaDecks);
    s := state.(oppMetaDeckGuesses := guesses);
  }

  /**
   * When some catalog deck holds the opponent's active card and bench, every
   * guess holds the active card.
   */
  lemma GuessesHoldActiveCard(state: GameState, allMetaDecks: seq<string>, k: nat)
    requires k < |allMetaDecks| && ShowsAll(allMetaDecks[k], VisibleNames(state))
    ensures forall j :: 0 <= j < |FilteredDecks(VisibleNames(state), allMetaDecks)| ==>
              ToLower(state.opponentActivePokemon.name)
                in DeckPokemons(FilteredDecks(VisibleNames(state), allMetaDecks)[j])
  {
    FilteredDecksShowAll(VisibleNames(state), allMetaDecks, k);
  }

  // ---------------------------------------------------------------------
  // loadPresetDeck
  // ---------------------------------------------------------------------

  /** `count` copies of a card; none when the count is not positive. */
  function Copies(card: Pokemon, count: int): (r: seq<Pokemon>)
    ensures |r| == if count < 0 then 0 else count
    ensures forall k :: 0 <= k < |r| ==> r[k] == card
    decreases count
  {
    if count <= 0 then [] else Copies(card, count - 1) + [card]
  }

  /**
   * The cards one line of a preset deck file adds: for `name, count` with a
   * name the map knows, that many copies of its card; nothing for a blank
   * line, a line with fewer than two fields or an unknown name.
   */
  function PresetEntry(line: string, cardMap: map<string, Pokemon>): (r: seq<Pokemon>)
    ensures forall k :: 0 <= k < |r| ==> r[k] in cardMap.Values
  {
    var l := Trim(line);
    if l == [] then []
    else
      var tokens := SplitAndTrim(l, ',');
      if |tokens| < 2 then []
      else
        var key := Normalize(tokens[0]);
        if key !in cardMap then [] else Copies(cardMap[key], FileParser.IntOrZero(tokens[1]))
  }

  /** A known name with count c adds max(c, 0) copies of its card. */
  lemma PresetEntryFound(line: string, cardMap: map<string, Pokemon>)
    requires Trim(line) != [] && |SplitAndTrim(Trim(line), ',')| >= 2
    requires Normalize(SplitAndTrim(Trim(line), ',')[0]) in cardMap
    ensures var tokens := SplitAndTrim(Trim(line), ',');
            var count := FileParser.IntOrZero(tokens[1]);
            |PresetEntry(line, cardMap)| == (if count < 0 then 0 else count) &&
            forall k :: 0 <= k < |PresetEntry(line, cardMap)| ==>
              PresetEntry(line, cardMap)[k] == cardMap[Normalize(tokens[0])]
  {
  }

  /** The cards a preset deck file adds, line after line. */
  function PresetDeck(lines: seq<string>, cardMap: map<string, Pokemon>): seq<Pokemon>
  {
    if lines == [] then []
    else PresetDeck(lines[..|lines| - 1], cardMap) + PresetEntry(lines[|lines| - 1], cardMap)
  }

  /** Every card a preset deck file adds is a card of the map. */
  lemma {:induction false} PresetCardsFromMap(lines: seq<string>, cardMap: map<string, Pokemon>)
    ensures forall k :: 0 <= k < |PresetDeck(lines, cardMap)| ==> PresetDeck(lines, cardMap)[k] in cardMap.Values
    decreases |lines|
  {
    if lines != [] {
      PresetCardsFromMap(lines[..|lines| - 1], cardMap);
    }
  }

  /** Reading a preset deck file in two parts reads it whole. */
  lemma {:induction false} PresetDeckAppend(a: seq<string>, b: seq<string>, cardMap: map<string, Pokemon>)
    ensures PresetDeck(a + b, cardMap) == PresetDeck(a, cardMap) + PresetDeck(b, cardMap)
    decreases |b|
  {
    if b == [] {
      assert a + b == a;
    } else {
      var b', last := b[..|b| - 1], b[|b| - 1];
      DropLastOfAppend(a, b);
      PresetDeckAppend(a, b', cardMap);
      var e := PresetEntry(last, cardMap);
      assert PresetDeck(a + b, cardMap) == PresetDeck(a + b', cardMap) + e;
      AppendAssoc(PresetDeck(a, cardMap), PresetDeck(b', cardMap), e);
    }
  }

  /** The preset deck loop's invariant carried over one line. */
  lemma PresetStep(lines: seq<string>, i: nat, cardMap: map<string, Pokemon>)
    requires i < |lines|
    ensures PresetDeck(lines[..i + 1], cardMap) == PresetDeck(lines[..i], cardMap) + PresetEntry(lines[i], cardMap)
  {
    TakeOneMore(lines, i);
    TakeFront(lines[..i], lines[i]);
  }

  /** The copy loop: `count` pushes of the same card. */
  method PushCopies(deck: seq<Pokemon>, card: Pokemon, count: int) returns (r: seq<Pokemon>)
    ensures r == deck + Copies(card, count)
  {
    r := deck;
    var i := 0;
    while i < count
      invariant (count <= 0 ==> i == 0) && (count > 0 ==> 0 <= i <= count)
      invariant r == deck + Copies(card, i)
    {
      AppendAssoc(deck, Copies(card, i), [card]);
      r := r + [card];
      i := i + 1;
    }
  }

  /**
   * GameSimulation.cpp `loadPresetDeck`: the cards of the file are pushed
   * after those already in the deck. `file` is None when the file cannot be
   * opened; the deck is then left as it was.
   */
  method LoadPresetDeck(file: Option<string>, cardMap: map<string, Pokemon>, deck: seq<Pokemon>)
    returns (d: seq<Pokemon>)
    ensures file.None? ==> d == deck
    ensures file.Some? ==> d == deck + PresetDeck(Fields(file.value, '\n'), cardMap)
  {
    d := deck;
    if file.None? {
      return;
    }
    var lines := Fields(file.value, '\n');
    var i := 0;
    while i < |lines|
      invariant 0 <= i <= |lines|
      invariant d == deck + PresetDeck(lines[..i], cardMap)
    {
      PresetStep(lines, i, cardMap);
      AppendAssoc(deck, PresetDeck(lines[..i], cardMap), PresetEntry(lines[i], cardMap));
      var line := Trim(lines[i]);
      i := i + 1;
      if line == [] {
        continue;
      }
      var tokens := SplitAndTrim(line, ',');
      if |tokens| < 2 {
        continue;
      }
      var cardName := tokens[0];
      var count := FileParser.ParseIntOrZero(tokens[1]);
      var key := Normalize(cardName);
      if key !in cardMap {
        continue;
      }
      d := PushCopies(d, cardMap[key], count);
    }
    assert lines[..i] == lines;
  }

  // ---------------------------------------------------------------------
  // drawInitialHand
  // ---------------------------------------------------------------------

  /** Index of the first card with exactly this name, |deck| when there is none. */
  function FindByName(deck: seq<Pokemon>, name: string): (k: nat)
    ensures k <= |deck|
    ensures k < |deck| ==> deck[k].name == name
    ensures forall j :: 0 <= j < k ==> deck[j].name != name
  {
    if deck == [] then 0
    else if deck[0].name == name then 0
    else 1 + FindByName(deck[1..], name)
  }

  /** The deck and the hand. */
  datatype Piles = Piles(deck: seq<Pokemon>, hand: seq<Pokemon>)

  /**
   * Each name in turn moves the first deck card of that name to the end of
   * the hand; the first name the deck lacks stops the drawing.
   */
  function DrawNames(p: Piles, names: seq<string>): Piles
    decreases |names|
  {
    if names == [] then p
    else
      var k := FindByName(p.deck, names[0]);
      if k == |p.deck| then p
      else DrawNames(Piles(p.deck[..k] + p.deck[k + 1..], p.hand + [p.deck[k]]), names[1..])
  }

  /** Drawing moves cards and loses or makes none: deck and hand together keep their cards. */
  lemma {:induction false} DrawKeepsCards(p: Piles, names: seq<string>)
    ensures multiset(DrawNames(p, names).deck) + multiset(DrawNames(p, names).hand)
              == multiset(p.deck) + multiset(p.hand)
    decreases |names|
  {
    if names != [] {
      var k := FindByName(p.deck, names[0]);
      if k < |p.deck| {
        var q := Piles(p.deck[..k] + p.deck[k + 1..], p.hand + [p.deck[k]]);
        DrawKeepsCards(q, names[1..]);
        assert p.deck == p.deck[..k] + [p.deck[k]] + p.deck[k + 1..];
      }
    }
  }

  /** |deck| + |hand| does not change. */
  lemma DrawKeepsCount(p: Piles, names: seq<string>)
    ensures |DrawNames(p, names).deck| + |DrawNames(p, names).hand| == |p.deck| + |p.hand|
  {
    DrawKeepsCards(p, names);
    var r := DrawNames(p, names);
    assert |multiset(r.deck) + multiset(r.hand)| == |multiset(p.deck) + multiset(p.hand)|;
  }

  /**
   * The hand keeps its cards and gains, at its end, one card per name of a
   * prefix of the names, each bearing that exact name.
   */
  lemma {:induction false} DrawExtendsHand(p: Piles, names: seq<string>)
    ensures var r := DrawNames(p, names);
            p.hand <= r.hand && |r.hand| <= |p.hand| + |names| &&
            forall j :: |p.hand| <= j < |r.hand| ==> r.hand[j].name == names[j - |p.hand|]
    decreases |names|
  {
    if names != [] {
      var k := FindByName(p.deck, names[0]);
      if k < |p.deck| {
        var q := Piles(p.deck[..k] + p.deck[k + 1..], p.hand + [p.deck[k]]);
        DrawExtendsHand(q, names[1..]);
        var r := DrawNames(p, names);
        forall j | |p.hand| <= j < |r.hand| ensures r.hand[j].name == names[j - |p.hand|] {
          if j > |p.hand| {
            assert r.hand[j].name == names[1..][j - |q.hand|];
          }
        }
      }
    }
  }

  /** The first name that the deck lacks leaves deck and hand as they are. */
  lemma DrawStopsAtMiss(p: Piles, names: seq<string>)
    requires names != [] && forall j :: 0 <= j < |p.deck| ==> p.deck[j].name != names[0]
    ensures DrawNames(p, names) == p
  {
  }

  /** `std::find_if` over the deck for the exact name. */
  method FindCard(deck: seq<Pokemon>, cardName: string) returns (k: nat)
    ensures k == FindByName(deck, cardName)
  {
    k := 0;
    while k < |deck| && deck[k].name != cardName
      invariant k <= |deck|
      invariant FindByName(deck[k..], cardName) + k == FindByName(deck, cardName)
    {
      assert deck[k..][1..] == deck[k + 1..];
      k := k + 1;
    }
  }

  /** The drawing loop's invariant carried over one found name. */
  lemma DrawStep(p: Piles, names: seq<string>, i: nat, deck: seq<Pokemon>, hand: seq<Pokemon>, k: nat)
    requires i < |names| && k < |deck| && k == FindByName(deck, names[i])
    requires DrawNames(Piles(deck, hand), names[i..]) == DrawNames(p, names)
    ensures DrawNames(Piles(deck[..k] + deck[k + 1..], hand + [deck[k]]), names[i + 1..]) == DrawNames(p, names)
  {
    DropDrop(names, i, 1);
  }

  /**
   * GameSimulation.cpp `drawInitialHand`, with the typed line `input` given:
   * unless it holds exactly INITIAL_HAND_SIZE comma fields nothing changes;
   * otherwise the named cards move from deck to hand until a name is missing.
   */
  method DrawInitialHand(input: string, state: GameState) returns (s: GameState)
    ensures |SplitAndTrim(input, ',')| != INITIAL_HAND_SIZE ==> s == state
    ensures |SplitAndTrim(input, ',')| == INITIAL_HAND_SIZE ==>
              var r := DrawNames(Piles(state.deck, state.hand), SplitAndTrim(input, ','));
              s == state.(deck := r.deck, hand := r.hand)
  {
    var cardNames := SplitAndTrim(input, ',');
    if |cardNames| != INITIAL_HAND_SIZE {
      return state;
    }
    ghost var start := Piles(state.deck, state.hand);
    var deck, hand := state.deck, state.hand;
    var i := 0;
    while i < |cardNames|
      invariant 0 <= i <= |cardNames|
      invariant DrawNames(Piles(deck, hand), cardNames[i..]) == DrawNames(start, cardNames)
    {
      var k := FindCard(deck, cardNames[i]);
      if k == |deck| {
        break;
      }
      DrawStep(start, cardNames, i, deck, hand, k);
      hand := hand + [deck[k]];
      deck := deck[..k] + deck[k + 1..];
      i := i + 1;
    }
    assert i == |cardNames| ==> cardNames[i..] == [];
    s := state.(deck := deck, hand := hand);
  }

  // ---------------------------------------------------------------------
  // simulateDecisionTree and simulateDecisionTreeSequential
  // ---------------------------------------------------------------------

  /**
   * The state after an attack of `dmg`: the opponent's active card loses
   * that much HP, never going below 0.
   */
  function AfterAttack(state: GameState, dmg: int): (s: GameState)
  {
    var hp := state.opponentActivePokemon.hp - dmg;
    state.(opponentActivePokemon := state.opponentActivePokemon.(hp := if hp < 0 then 0 else hp))
  }

  /** An attack changes nothing but the opponent's HP, which stays at or above 0 and reaches 0 exactly when the damage is at least the HP. */
  lemma AttackChangesOnlyHp(state: GameState, dmg: int)
    ensures var s := AfterAttack(state, dmg);
            var hp := state.opponentActivePokemon.hp;
            && s.(opponentActivePokemon := state.opponentActivePokemon) == state
            && s.opponentActivePokemon.(hp := hp) == state.opponentActivePokemon
            && s.opponentActivePokemon.hp >= 0
            && (s.opponentActivePokemon.hp == 0 <==> hp <= dmg)
            && (hp > dmg ==> s.opponentActivePokemon.hp == hp - dmg)
  {
  }

  /** The successors of a state: one per skill of the active card, in skill order. */
  function NextStates(state: GameState): (next: seq<GameState>)
    ensures |next| == |state.activePokemon.skills|
  {
    var skills := state.activePokemon.skills;
    seq(|skills|, i requires 0 <= i < |skills| => AfterAttack(state, skills[i].dmg))
  }

  /** Successors keep the attacker, so their successors come from the same skills. */
  lemma NextStatesKeepAttacker(state: GameState)
    ensures forall i :: 0 <= i < |NextStates(state)| ==>
              NextStates(state)[i].activePokemon == state.activePokemon
  {
  }

  /** The sum of a list of values. */
  function Sum(xs: seq<real>): real
  {
    if xs == [] then 0.0 else Sum(xs[..|xs| - 1]) + xs[|xs| - 1]
  }

  /**
   * The value of the search: the leaf value at depth 0 or when the active
   * card has no skill, otherwise the mean of the successors' values one
   * level down. A negative depth with skills never reaches 0, so it is
   * excluded. The leaf evaluator `eval` is a fixed function of the state.
   */
  function DecisionValue(state: GameState, depth: int, eval: GameState -> real): real
    requires depth >= 0 || state.activePokemon.skills == []
    decreases if depth < 0 then 0 else depth, 0, 0
  {
    if depth == 0 || state.activePokemon.skills == [] then eval(state)
    else
      var next := NextStates(state);
      NextStatesKeepAttacker(state);
      Sum(ChildValues(next, depth - 1, eval)) / (|next| as real)
  }

  /** The values of a list of states, each searched to `depth`. */
  function ChildValues(states: seq<GameState>, depth: nat, eval: GameState -> real): (vs: seq<real>)
    ensures |vs| == |states|
    decreases depth, 1, |states|
  {
    if states == [] then []
    else ChildValues(states[..|states| - 1], depth, eval) + [DecisionValue(states[|states| - 1], depth, eval)]
  }

  /** The i-th child value is the value of the i-th state. */
  lemma {:induction false} ChildValuesAt(states: seq<GameState>, depth: nat, eval: GameState -> real)
    ensures forall i :: 0 <= i < |states| ==> ChildValues(states, depth, eval)[i] == DecisionValue(states[i], depth, eval)
    decreases |states|
  {
    if states != [] {
      var front := states[..|states| - 1];
      ChildValuesAt(front, depth, eval);
      assert forall i :: 0 <= i < |front| ==> front[i] == states[i];
    }
  }

  /** At depth 0, or with no skill to use, the search evaluates the state itself. */
  lemma DecisionLeaf(state: GameState, depth: int, eval: GameState -> real)
    requires depth == 0 || state.activePokemon.skills == []
    ensures DecisionValue(state, depth, eval) == eval(state)
  {
  }

  /**
   * Otherwise its value is the mean of the successors' values one level
   * down, one successor per skill.
   */
  lemma DecisionMean(state: GameState, depth: int, eval: GameState -> real)
    requires depth > 0 && state.activePokemon.skills != []
    ensures var next := NextStates(state);
            var n := |state.activePokemon.skills|;
            DecisionValue(state, depth, eval)
              == Sum(seq(n, i requires 0 <= i < n => DecisionValue(next[i], depth - 1, eval))) / (n as real)
  {
    var next := NextStates(state);
    var n := |next|;
    NextStatesKeepAttacker(state);
    ChildValuesAt(next, depth - 1, eval);
    assert ChildValues(next, depth - 1, eval)
             == seq(n, i requires 0 <= i < n => DecisionValue(next[i], depth - 1, eval));
  }

  /** A sum of values in [0, 1] lies between 0 and the number of values. */
  lemma {:induction false} SumBounds(xs: seq<real>)
    requires forall k :: 0 <= k < |xs| ==> 0.0 <= xs[k] <= 1.0
    ensures 0.0 <= Sum(xs) <= |xs| as real
    decreases |xs|
  {
    if xs != [] {
      SumBounds(xs[..|xs| - 1]);
    }
  }

  /** With every leaf value in [0, 1], the value of the search is in [0, 1]. */
  lemma {:induction false} DecisionValueBounded(state: GameState, depth: int, eval: GameState -> real)
    requires forall s :: 0.0 <= eval(s) <= 1.0
    requires depth >= 0 || state.activePokemon.skills == []
    ensures 0.0 <= DecisionValue(state, depth, eval) <= 1.0
    decreases if depth < 0 then 0 else depth, 0, 0
  {
    if depth != 0 && state.activePokemon.skills != [] {
      var next := NextStates(state);
      NextStatesKeepAttacker(state);
      ChildValuesBounded(next, depth - 1, eval);
      var vs := ChildValues(next, depth - 1, eval);
      SumBounds(vs);
      DecisionUnfold(state, depth, eval);
      MeanInUnit(Sum(vs), |next| as real);
    }
  }

  /** The value one level above the leaves, written with the children's values. */
  lemma DecisionUnfold(state: GameState, depth: int, eval: GameState -> real)
    requires depth > 0 && state.activePokemon.skills != []
    ensures |NextStates(state)| > 0
    ensures DecisionValue(state, depth, eval)
              == Sum(ChildValues(NextStates(state), depth - 1, eval)) / (|NextStates(state)| as real)
  {
    NextStatesKeepAttacker(state);
  }

  /** A total between 0 and n, divided by n, lies in [0, 1]. */
  lemma MeanInUnit(total: real, n: real)
    requires n > 0.0 && 0.0 <= total <= n
    ensures 0.0 <= total / n <= 1.0
  {
    var q := total / n;
    assert q * n == total;
  }

  /** The mean of values that are all c is c. */
  lemma MeanOfConstants(vs: seq<real>, c: real)
    requires vs != [] && forall k :: 0 <= k < |vs| ==> vs[k] == c
    ensures Sum(vs) / (|vs| as real) == c
  {
    SumConstant(vs, c);
    var n := |vs| as real;
    assert Sum(vs) == n * c;
  }

  /** Every child value is in [0, 1] when every leaf value is. */
  lemma {:induction false} ChildValuesBounded(states: seq<GameState>, depth: nat, eval: GameState -> real)
    requires forall s :: 0.0 <= eval(s) <= 1.0
    ensures forall k :: 0 <= k < |states| ==> 0.0 <= ChildValues(states, depth, eval)[k] <= 1.0
    decreases depth, 1, |states|
  {
    if states != [] {
      ChildValuesBounded(states[..|states| - 1], depth, eval);
      DecisionValueBounded(states[|states| - 1], depth, eval);
    }
  }

  /** The sum of n copies of c. */
  lemma {:induction false} SumConstant(xs: seq<real>, c: real)
    requires forall k :: 0 <= k < |xs| ==> xs[k] == c
    ensures Sum(xs) == (|xs| as real) * c
    decreases |xs|
  {
    if xs != [] {
      SumConstant(xs[..|xs| - 1], c);
    }
  }

  /** When every leaf has the same value, the search returns that value: a mean changes nothing. */
  lemma {:induction false} DecisionValueConstant(state: GameState, depth: int, eval: GameState -> real, c: real)
    requires forall s :: eval(s) == c
    requires depth >= 0 || state.activePokemon.skills == []
    ensures DecisionValue(state, depth, eval) == c
    decreases if depth < 0 then 0 else depth, 0, 0
  {
    if depth != 0 && state.activePokemon.skills != [] {
      var next := NextStates(state);
      NextStatesKeepAttacker(state);
      ChildValuesConstant(next, depth - 1, eval, c);
      DecisionUnfold(state, depth, eval);
      MeanOfConstants(ChildValues(next, depth - 1, eval), c);
    } else {
      DecisionLeaf(state, depth, eval);
    }
  }

  /** Every child value is c when every leaf value is. */
  lemma {:induction false} ChildValuesConstant(states: seq<GameState>, depth: nat, eval: GameState -> real, c: real)
    requires forall s :: eval(s) == c
    ensures forall k :: 0 <= k < |states| ==> ChildValues(states, depth, eval)[k] == c
    decreases depth, 1, |states|
  {
    if states != [] {
      ChildValuesConstant(states[..|states| - 1], depth, eval, c);
      DecisionValueConstant(states[|states| - 1], depth, eval, c);
    }
  }

  /** The successor loop shared by both searches. */
  method GenerateNextStates(state: GameState) returns (nextStates: seq<GameState>)
    ensures nextStates == NextStates(state)
  {
    var skills := state.activePokemon.skills;
    nextStates := [];
    var i := 0;
    while i < |skills|
      invariant 0 <= i <= |skills| && |nextStates| == i
      invariant forall k :: 0 <= k < i ==> nextStates[k] == AfterAttack(state, skills[k].dmg)
    {
      var opponent := state.opponentActivePokemon;
      var s := state.(opponentActivePokemon := opponent.(hp := opponent.hp - skills[i].dmg));
      if s.opponentActivePokemon.hp < 0 {
        s := s.(opponentActivePokemon := s.opponentActivePokemon.(hp := 0));
      }
      nextStates := nextStates + [s];
      i := i + 1;
    }
  }

  /** The accumulation loop's invariant carried over one child. */
  lemma ChildSumStep(states: seq<GameState>, i: nat, depth: nat, eval: GameState -> real, total: real, value: real)
    requires i < |states|
    requires total == Sum(ChildValues(states[..i], depth, eval))
    requires value == DecisionValue(states[i], depth, eval)
    ensures total + value == Sum(ChildValues(states[..i + 1], depth, eval))
  {
    TakeOneMore(states, i);
    TakeFront(states[..i], states[i]);
    var vs := ChildValues(states[..i], depth, eval);
    TakeFront(vs, DecisionValue(states[i], depth, eval));
  }

  /**
   * The accumulation loop of the sequential search: the children's values,
   * each found by the sequential search, added up in order.
   */
  method SumChildOutcomes(nextStates: seq<GameState>, depth: nat, eval: GameState -> real)
    returns (totalOutcome: real)
    ensures totalOutcome == Sum(ChildValues(nextStates, depth, eval))
    decreases depth, 1
  {
    totalOutcome := 0.0;
    var i := 0;
    while i < |nextStates|
      invariant 0 <= i <= |nextStates|
      invariant totalOutcome == Sum(ChildValues(nextStates[..i], depth, eval))
    {
      var value := SimulateDecisionTreeSequential(nextStates[i], depth, eval);
      ChildSumStep(nextStates, i, depth, eval, totalOutcome, value);
      totalOutcome := totalOutcome + value;
      i := i + 1;
    }
    assert nextStates[..i] == nextStates;
  }

  /** GameSimulation.cpp `simulateDecisionTreeSequential`, with the leaf evaluator `eval` given. */
  method SimulateDecisionTreeSequential(state: GameState, depth: int, eval: GameState -> real) returns (v: real)
    requires depth >= 0 || state.activePokemon.skills == []
    ensures v == DecisionValue(state, depth, eval)
    decreases if depth < 0 then 0 else depth, 0
  {
    if depth == 0 {
      return eval(state);
    }
    var nextStates := GenerateNextStates(state);
    if |nextStates| == 0 {
      return eval(state);
    }
    var totalOutcome := SumChildOutcomes(nextStates, depth - 1, eval);
    v := totalOutcome / (|nextStates| as real);
  }

  /** The list of child values carried over one child. */
  lemma ChildValuesStep(states: seq<GameState>, i: nat, depth: nat, eval: GameState -> real)
    requires i < |states|
    ensures ChildValues(states[..i + 1], depth, eval)
              == ChildValues(states[..i], depth, eval) + [DecisionValue(states[i], depth, eval)]
  {
    TakeOneMore(states, i);
    TakeFront(states[..i], states[i]);
  }

  /**
   * The parallel loop of the top level: each child is searched on its own
   * with the sequential search, and its value kept in the child's slot.
   */
  method ChildOutcomes(nextStates: seq<GameState>, depth: nat, eval: GameState -> real)
    returns (values: seq<real>)
    ensures values == ChildValues(nextStates, depth, eval)
  {
    values := [];
    var i := 0;
    while i < |nextStates|
      invariant 0 <= i <= |nextStates|
      invariant values == ChildValues(nextStates[..i], depth, eval)
    {
      var value := SimulateDecisionTreeSequential(nextStates[i], depth, eval);
      ChildValuesStep(nextStates, i, depth, eval);
      values := values + [value];
      i := i + 1;
    }
    assert nextStates[..i] == nextStates;
  }

  /**
   * GameSimulation.cpp `simulateDecisionTree`: the top level searches its
   * children independently (in parallel in the source) and reduces their
   * values with `+`. For the same evaluator it returns the same value as
   * the sequential search.
   */
  method SimulateDecisionTree(state: GameState, depth: int, eval: GameState -> real) returns (v: real)
    requires depth >= 0 || state.activePokemon.skills == []
    ensures v == DecisionValue(state, depth, eval)
  {
    if depth == 0 {
      return eval(state);
    }
    var nextStates := GenerateNextStates(state);
    if |nextStates| == 0 {
      return eval(state);
    }
    var values := ChildOutcomes(nextStates, depth - 1, eval);
    v := Sum(values) / (|nextStates| as real);
  }
}
