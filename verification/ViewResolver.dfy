/**
 Aggregating what an agent emitted per case into one view: alert list, table and Kanban
 board, and the two case-output views with a fixed shape.
 */
module ViewResolver {
  import opened Json
  import opened ObjectCounts
  import opened StableSort
  import opened Text

  /** One case's payload for a view, with the link to its trace. */
  datatype Carrier = Carrier(caseId: Option<string>, caseHref: Option<string>, value: Json)

  /** A resolved view, or the reason box shown in its place. */
  datatype View<T> = Empty | Shown(data: T)

  function AsString(v: Json): Option<string> {
    if v.Str? then Some(v.s) else None
  }

  function OrElse(v: Option<string>, fallback: string): string {
    if v.Some? then v.value else fallback
  }

  /** A string that is there and not empty: the ones `if (!s)` lets through. */
  predicate NonEmpty(v: Option<string>) {
    v.Some? && v.value != ""
  }

  function ObjectsIn(items: seq<Json>): seq<Object> {
    if items == [] then []
    else
      var before := ObjectsIn(items[..|items| - 1]);
      var last := items[|items| - 1];
      if last.Dict? then before + [last.fields] else before
  }

  /** `asArrayOfObjects`. */
  function ArrayOfObjects(v: Json): seq<Object> {
    if v.Arr? then ObjectsIn(v.items) else []
  }

  // ---------------------------------------------------------------------------
  // Alerts
  // ---------------------------------------------------------------------------

  datatype Alert = Alert(severity: string, title: string, meta: string, actionUrl: Option<string>)

  const MAX_ALERTS := 8

  predicate Usable(a: Object) {
    NonEmpty(AsString(Get(a, "title")))
  }

  function AlertOf(a: Object, href: Option<string>): Alert
    requires Usable(a)
  {
    var severity := OrElse(AsString(Get(a, "severity")), "medium");
    Alert(if severity in ["high", "medium", "low"] then severity else "medium",
          Get(a, "title").s, OrElse(AsString(Get(a, "meta")), ""), href)
  }

  /** The usable alerts among `objects`, in order. */
  function AlertsAmong(objects: seq<Object>, href: Option<string>): seq<Alert> {
    if objects == [] then []
    else
      var before := AlertsAmong(objects[..|objects| - 1], href);
      var last := objects[|objects| - 1];
      if Usable(last) then before + [AlertOf(last, href)] else before
  }

  /** Every case's usable alerts, in order. */
  function AllAlerts(carriers: seq<Carrier>): seq<Alert> {
    if carriers == [] then []
    else
      var last := carriers[|carriers| - 1];
      AllAlerts(carriers[..|carriers| - 1]) + AlertsAmong(ArrayOfObjects(last.value), last.caseHref)
  }

  lemma {:induction false} AlertsGrow(objects: seq<Object>, href: Option<string>, i: nat)
    requires i <= |objects|
    ensures AlertsAmong(objects[..i], href) <= AlertsAmong(objects, href)
    decreases |objects|
  {
    if i == |objects| {
      assert objects[..i] == objects;
    } else {
      var shorter := objects[..|objects| - 1];
      assert shorter[..i] == objects[..i];
      AlertsGrow(shorter, href, i);
    }
  }

  lemma {:induction false} AllAlertsGrow(carriers: seq<Carrier>, i: nat)
    requires i <= |carriers|
    ensures AllAlerts(carriers[..i]) <= AllAlerts(carriers)
    decreases |carriers|
  {
    if i == |carriers| {
      assert carriers[..i] == carriers;
    } else {
      var shorter := carriers[..|carriers| - 1];
      assert shorter[..i] == carriers[..i];
      AllAlertsGrow(shorter, i);
    }
  }

  function FirstAlerts(alerts: seq<Alert>): seq<Alert> {
    if |alerts| <= MAX_ALERTS then alerts else alerts[..MAX_ALERTS]
  }

  /** What an alert may be: a title, a known severity, the link of its case. */
  ghost predicate AlertFrom(alert: Alert, o: Object, href: Option<string>) {
    && Get(o, "title") == Str(alert.title) && alert.title != "" && alert.actionUrl == href
    && alert.severity in {"high", "medium", "low"}
    && (Get(o, "severity") in {Str("high"), Str("medium"), Str("low")} ==> Get(o, "severity") == Str(alert.severity))
    && (Get(o, "severity") !in {Str("high"), Str("medium"), Str("low")} ==> alert.severity == "medium")
    && (if Get(o, "meta").Str? then Get(o, "meta") == Str(alert.meta) else alert.meta == "")
  }

  /** There is a title to show. */
  ghost predicate Titled(o: Object) {
    Get(o, "title").Str? && Get(o, "title") != Str("")
  }

  lemma {:induction false} AlertsSayAmong(objects: seq<Object>, href: Option<string>)
    ensures forall a | a in AlertsAmong(objects, href) :: exists o :: o in objects && AlertFrom(a, o, href)
    ensures forall o | o in objects && Titled(o) :: exists a :: a in AlertsAmong(objects, href) && AlertFrom(a, o, href)
  {
    if objects != [] {
      var last := objects[|objects| - 1];
      AlertsSayAmong(objects[..|objects| - 1], href);
      if Usable(last) {
        assert last in objects && AlertFrom(AlertOf(last, href), last, href);
        assert AlertOf(last, href) in AlertsAmong(objects, href);
      }
    }
  }

  /** Every alert says what an object of its case says, and every titled object has its alert. */
  lemma {:induction false} AlertsSay(carriers: seq<Carrier>)
    ensures forall a | a in AllAlerts(carriers) ::
      exists c, o :: c in carriers && o in ArrayOfObjects(c.value) && AlertFrom(a, o, c.caseHref)
    ensures forall c, o | c in carriers && o in ArrayOfObjects(c.value) && Titled(o) ::
      exists a :: a in AllAlerts(carriers) && AlertFrom(a, o, c.caseHref)
  {
    if carriers != [] {
      var last := carriers[|carriers| - 1];
      AlertsSay(carriers[..|carriers| - 1]);
      AlertsSayAmong(ArrayOfObjects(last.value), last.caseHref);
      assert last in carriers;
    }
  }

  /** A full prefix is all that will ever be shown. */
  lemma FullPrefix(prefix: seq<Alert>, alerts: seq<Alert>)
    requires prefix <= alerts && |prefix| == MAX_ALERTS
    ensures prefix == FirstAlerts(alerts)
  {
  }

  /** The inner loop: one case's alerts, until the list is full. */
  method AddAlerts(before: seq<Alert>, objects: seq<Object>, href: Option<string>) returns (data: seq<Alert>)
    requires |before| < MAX_ALERTS
    ensures data == FirstAlerts(before + AlertsAmong(objects, href))
  {
    data := before;
    for i := 0 to |objects|
      invariant data == before + AlertsAmong(objects[..i], href)
      invariant |data| < MAX_ALERTS
    {
      assert objects[..i + 1][..i] == objects[..i];
      if Usable(objects[i]) {
        data := data + [AlertOf(objects[i], href)];
        if |data| >= MAX_ALERTS {
          AlertsGrow(objects, href, i + 1);
          FullPrefix(data, before + AlertsAmong(objects, href));
          return;
        }
      }
    }
    assert objects[..|objects|] == objects;
  }

  /** `payloadToAlertList`: the first eight usable alerts of all the cases together. */
  method PayloadToAlertList(carriers: seq<Carrier>) returns (view: View<seq<Alert>>)
    ensures view.Empty? <==> AllAlerts(carriers) == []
    ensures view.Shown? ==> |view.data| <= 8 && view.data <= AllAlerts(carriers)
    ensures view.Shown? && |view.data| < 8 ==> view.data == AllAlerts(carriers)
  {
    var data: seq<Alert> := [];
    for i := 0 to |carriers|
      invariant |data| < MAX_ALERTS
      invariant data == AllAlerts(carriers[..i])
    {
      assert carriers[..i + 1][..i] == carriers[..i];
      data := AddAlerts(data, ArrayOfObjects(carriers[i].value), carriers[i].caseHref);
      if |data| >= MAX_ALERTS {
        AllAlertsGrow(carriers, i + 1);
        FullPrefix(data, AllAlerts(carriers));
        return Shown(data);
      }
    }
    assert carriers[..|carriers|] == carriers;
    view := if data == [] then Empty else Shown(data);
  }

  // ---------------------------------------------------------------------------
  // Kanban
  // ---------------------------------------------------------------------------

  datatype Card = Card(id: string, columnKey: string, title: string, body: string, meta: string, href: Option<string>)

  /** A column as shown; its count is whatever the counting object holds. */
  datatype Column = Column(key: string, caption: string, count: Value)

  datatype Board = Board(columns: seq<Column>, cards: seq<Card>)

  datatype ColumnDef = ColumnDef(key: string, caption: string)

  function ColumnDefs(objects: seq<Object>): (defs: seq<ColumnDef>)
    ensures |defs| == |objects|
  {
    seq(|objects|, i requires 0 <= i < |objects| =>
      ColumnDef(OrElse(AsString(Get(objects[i], "key")), ""), OrElse(AsString(Get(objects[i], "label")), "")))
  }

  predicate Declared(defs: seq<ColumnDef>, key: string) {
    key != "" && exists i :: 0 <= i < |defs| && defs[i].key == key
  }

  /** The card is kept: it has a title and a declared column. */
  predicate Fits(card: Object, defs: seq<ColumnDef>) {
    var key := AsString(Get(card, "column_key"));
    NonEmpty(key) && Declared(defs, key.value) && NonEmpty(AsString(Get(card, "title")))
  }

  /** `String(i)` for an array index is left to a parameter. */
  type ShowIndex = nat -> string

  function CardOf(card: Object, c: Carrier, i: nat, show: ShowIndex): Card
    requires AsString(Get(card, "column_key")).Some? && AsString(Get(card, "title")).Some?
  {
    Card(OrElse(c.caseId, "c") + "-" + show(i), Get(card, "column_key").s, Get(card, "title").s,
         OrElse(AsString(Get(card, "body")), ""), OrElse(AsString(Get(card, "meta")), ""), c.caseHref)
  }

  /** The kept cards among a case's first `n`. */
  function CardsAmong(objects: seq<Object>, c: Carrier, defs: seq<ColumnDef>, show: ShowIndex, n: nat): seq<Card>
    requires n <= |objects|
  {
    if n == 0 then []
    else
      var before := CardsAmong(objects, c, defs, show, n - 1);
      if Fits(objects[n - 1], defs) then before + [CardOf(objects[n - 1], c, n - 1, show)] else before
  }

  function CardObjects(c: Carrier): seq<Object> {
    ArrayOfObjects(Get(Fields(c.value), "cards"))
  }

  function AllCards(carriers: seq<Carrier>, defs: seq<ColumnDef>, show: ShowIndex): seq<Card> {
    if carriers == [] then []
    else
      var last := carriers[|carriers| - 1];
      AllCards(carriers[..|carriers| - 1], defs, show)
      + CardsAmong(CardObjects(last), last, defs, show, |CardObjects(last)|)
  }

  function CardsIn(cards: seq<Card>, key: string): nat {
    if cards == [] then 0
    else CardsIn(cards[..|cards| - 1], key) + if cards[|cards| - 1].columnKey == key then 1 else 0
  }

  function KeysOf(cards: seq<Card>): (keys: seq<string>)
    ensures |keys| == |cards|
  {
    seq(|cards|, i requires 0 <= i < |cards| => cards[i].columnKey)
  }

  lemma {:induction false} CardsAreOccurrences(cards: seq<Card>, key: string)
    ensures Occurrences(KeysOf(cards), key) == CardsIn(cards, key)
  {
    if cards != [] {
      CardsAreOccurrences(cards[..|cards| - 1], key);
      assert KeysOf(cards)[..|cards| - 1] == KeysOf(cards[..|cards| - 1]);
    }
  }

  /** The columns with the counts the object holds under their keys. */
  function CountedColumns(defs: seq<ColumnDef>, counts: Own): (columns: seq<Column>)
    ensures |columns| == |defs|
  {
    seq(|defs|, i requires 0 <= i < |defs| => Column(defs[i].key, defs[i].caption, Count(counts, defs[i].key)))
  }

  lemma {:induction false} CardsAmongDeclared(objects: seq<Object>, c: Carrier, defs: seq<ColumnDef>, show: ShowIndex,
            n: nat)
    requires n <= |objects|
    ensures forall card | card in CardsAmong(objects, c, defs, show, n) ::
      Declared(defs, card.columnKey) && card.title != ""
  {
    if n > 0 {
      CardsAmongDeclared(objects, c, defs, show, n - 1);
    }
  }

  /** What a card may be: the strings of its object, numbered within its case. */
  ghost predicate CardFrom(card: Card, c: Carrier, i: nat, show: ShowIndex) {
    var objects := ArrayOfObjects(Get(Fields(c.value), "cards"));
    && i < |objects|
    && var o := objects[i];
       && Get(o, "column_key") == Str(card.columnKey) && Get(o, "title") == Str(card.title)
       && (if Get(o, "body").Str? then Get(o, "body") == Str(card.body) else card.body == "")
       && (if Get(o, "meta").Str? then Get(o, "meta") == Str(card.meta) else card.meta == "")
       && card.href == c.caseHref
       && card.id == (if c.caseId.Some? then c.caseId.value else "c") + "-" + show(i)
  }

  /** The object names a declared column and has a title. */
  ghost predicate Placed(o: Object, defs: seq<ColumnDef>) {
    && Titled(o) && Get(o, "column_key").Str? && Get(o, "column_key") != Str("")
    && exists d :: d in defs && Get(o, "column_key") == Str(d.key)
  }

  lemma PlacedIff(o: Object, defs: seq<ColumnDef>)
    ensures Fits(o, defs) <==> Placed(o, defs)
  {
  }

  lemma {:induction false} CardsSayAmong(c: Carrier, defs: seq<ColumnDef>, show: ShowIndex, n: nat)
    requires n <= |CardObjects(c)|
    ensures forall card | card in CardsAmong(CardObjects(c), c, defs, show, n) ::
      exists i: nat :: CardFrom(card, c, i, show) && Placed(CardObjects(c)[i], defs)
    ensures forall i: nat | i < n && Placed(CardObjects(c)[i], defs) ::
      exists card :: card in CardsAmong(CardObjects(c), c, defs, show, n) && CardFrom(card, c, i, show)
  {
    if n > 0 {
      var o := CardObjects(c)[n - 1];
      CardsSayAmong(c, defs, show, n - 1);
      PlacedIff(o, defs);
      if Fits(o, defs) {
        assert CardFrom(CardOf(o, c, n - 1, show), c, n - 1, show);
        assert CardOf(o, c, n - 1, show) in CardsAmong(CardObjects(c), c, defs, show, n);
      }
    }
  }

  /** Every card says what a placed object of its case says, and every placed object has its card. */
  lemma {:induction false} CardsSay(carriers: seq<Carrier>, defs: seq<ColumnDef>, show: ShowIndex)
    ensures forall card | card in AllCards(carriers, defs, show) ::
      exists c, i: nat :: c in carriers && CardFrom(card, c, i, show) && Placed(CardObjects(c)[i], defs)
    ensures forall c, i: nat | c in carriers && i < |CardObjects(c)| && Placed(CardObjects(c)[i], defs) ::
      exists card :: card in AllCards(carriers, defs, show) && CardFrom(card, c, i, show)
  {
    if carriers != [] {
      var last := carriers[|carriers| - 1];
      CardsSay(carriers[..|carriers| - 1], defs, show);
      CardsSayAmong(last, defs, show, |CardObjects(last)|);
      assert last in carriers;
    }
  }

  /** The declared columns, key by key. */
  lemma DefsSay(objects: seq<Object>)
    ensures forall i | 0 <= i < |objects| ::
      && (if Get(objects[i], "key").Str? then Get(objects[i], "key") == Str(ColumnDefs(objects)[i].key)
          else ColumnDefs(objects)[i].key == "")
      && (if Get(objects[i], "label").Str? then Get(objects[i], "label") == Str(ColumnDefs(objects)[i].caption)
          else ColumnDefs(objects)[i].caption == "")
  {
  }

  lemma {:induction false} AllCardsDeclared(carriers: seq<Carrier>, defs: seq<ColumnDef>, show: ShowIndex)
    ensures forall card | card in AllCards(carriers, defs, show) :: Declared(defs, card.columnKey) && card.title != ""
  {
    if carriers != [] {
      var last := carriers[|carriers| - 1];
      AllCardsDeclared(carriers[..|carriers| - 1], defs, show);
      CardsAmongDeclared(CardObjects(last), last, defs, show, |CardObjects(last)|);
    }
  }

  /** The inner loop: one case's cards that fit. */
  method AddCards(before: seq<Card>, c: Carrier, defs: seq<ColumnDef>, show: ShowIndex) returns (cards: seq<Card>)
    ensures cards == before + CardsAmong(CardObjects(c), c, defs, show, |CardObjects(c)|)
  {
    cards := before;
    var objects := CardObjects(c);
    for j := 0 to |objects|
      invariant cards == before + CardsAmong(objects, c, defs, show, j)
    {
      if Fits(objects[j], defs) {
        cards := cards + [CardOf(objects[j], c, j, show)];
      }
    }
  }

  /** `payloadToKanban`. */
  method PayloadToKanban(carriers: seq<Carrier>, show: ShowIndex, showInherited: ShowInherited)
    returns (view: View<Board>)
    requires carriers != []
    ensures
      var defs := ColumnDefs(ArrayOfObjects(Get(Fields(carriers[0].value), "columns")));
      && (view.Empty? <==> AllCards(carriers, defs, show) == [])
      && (view.Shown? ==> view.data.cards == AllCards(carriers, defs, show))
      && (view.Shown? ==>
            view.data.columns == CountedColumns(defs, Reduced(KeysOf(view.data.cards), showInherited)))
  {
    var defs := ColumnDefs(ArrayOfObjects(Get(Fields(carriers[0].value), "columns")));
    AllCardsDeclared(carriers, defs, show);
    assert AllCards(carriers, defs, show) == [] || AllCards(carriers, defs, show)[0] in AllCards(carriers, defs, show);
    if !carriers[0].value.Dict? {
      return Empty;
    }
    var cards: seq<Card> := [];
    for i := 0 to |carriers|
      invariant cards == AllCards(carriers[..i], defs, show)
    {
      assert carriers[..i + 1][..i] == carriers[..i];
      if carriers[i].value.Dict? {
        cards := AddCards(cards, carriers[i], defs, show);
      }
    }
    assert carriers[..|carriers|] == carriers;
    if defs == [] || cards == [] {
      return Empty;
    }
    var counts := Tally(KeysOf(cards), showInherited);
    view := Shown(Board(CountedColumns(defs, counts), cards));
  }

  /** The sum of the columns' card counts. */
  function TotalIn(defs: seq<ColumnDef>, cards: seq<Card>): nat {
    if defs == [] then 0 else TotalIn(defs[..|defs| - 1], cards) + CardsIn(cards, defs[|defs| - 1].key)
  }

  /** How often a key is declared. */
  function Declarations(defs: seq<ColumnDef>, key: string): nat {
    if defs == [] then 0
    else Declarations(defs[..|defs| - 1], key) + if defs[|defs| - 1].key == key then 1 else 0
  }

  lemma {:induction false} TotalOfNothing(defs: seq<ColumnDef>)
    ensures TotalIn(defs, []) == 0
  {
    if defs != [] {
      TotalOfNothing(defs[..|defs| - 1]);
    }
  }

  lemma {:induction false} OneMoreCard(defs: seq<ColumnDef>, cards: seq<Card>)
    requires cards != []
    ensures TotalIn(defs, cards)
         == TotalIn(defs, cards[..|cards| - 1]) + Declarations(defs, cards[|cards| - 1].columnKey)
  {
    if defs != [] {
      OneMoreCard(defs[..|defs| - 1], cards);
    }
  }

  lemma {:induction false} DeclaredCounts(defs: seq<ColumnDef>, key: string)
    ensures Declarations(defs, key) >= 1 <==> exists i :: 0 <= i < |defs| && defs[i].key == key
    ensures Declarations(defs, key) >= 2 <==> exists i, j ::
      0 <= i < j < |defs| && defs[i].key == key && defs[j].key == key
  {
    if defs != [] {
      var rest := defs[..|defs| - 1];
      DeclaredCounts(rest, key);
      if Declarations(rest, key) >= 1 && defs[|rest|].key == key {
        var i :| 0 <= i < |rest| && rest[i].key == key;
        assert 0 <= i < |rest| < |defs| && defs[i].key == key && defs[|rest|].key == key;
      }
    }
  }

  ghost predicate DeclaredTwice(defs: seq<ColumnDef>, key: string) {
    exists i, j :: 0 <= i < j < |defs| && defs[i].key == key && defs[j].key == key
  }

  /** The columns' card totals add up to the number of cards unless a column that holds a card is declared twice. */
  lemma {:induction false} TotalsAddUpIff(defs: seq<ColumnDef>, cards: seq<Card>)
    requires forall card | card in cards :: Declared(defs, card.columnKey)
    ensures TotalIn(defs, cards) >= |cards|
    ensures TotalIn(defs, cards) == |cards| <==> forall card | card in cards :: !DeclaredTwice(defs, card.columnKey)
  {
    if cards == [] {
      TotalOfNothing(defs);
    } else {
      var rest, last := cards[..|cards| - 1], cards[|cards| - 1];
      assert cards == rest + [last] && last in cards;
      TotalsAddUpIff(defs, rest);
      OneMoreCard(defs, cards);
      DeclaredCounts(defs, last.columnKey);
    }
  }

  /** For every board: each column shows its number of cards exactly when no column has an inherited name. */
  lemma CountsAreNumbersIff(defs: seq<ColumnDef>, cards: seq<Card>, showInherited: ShowInherited)
    ensures
      var columns := CountedColumns(defs, Reduced(KeysOf(cards), showInherited));
      (forall i | 0 <= i < |defs| :: columns[i].count == Number(CardsIn(cards, defs[i].key)))
      <==> NoneInherited(defs)
  {
    var columns := CountedColumns(defs, Reduced(KeysOf(cards), showInherited));
    forall i | 0 <= i < |defs|
      ensures columns[i].count == Number(CardsIn(cards, defs[i].key)) <==> defs[i].key !in PROTOTYPE
    {
      CountIsRightIff(KeysOf(cards), defs[i].key, showInherited);
      CardsAreOccurrences(cards, defs[i].key);
    }
  }

  /** The sum of the counts a board shows; `None` if one of them is no number. */
  function ShownTotal(columns: seq<Column>): Option<nat> {
    if columns == [] then Some(0)
    else
      var before, last := ShownTotal(columns[..|columns| - 1]), columns[|columns| - 1].count;
      if before.Some? && last.Number? then Some(before.value + last.n) else None
  }

  predicate NoneInherited(defs: seq<ColumnDef>) {
    forall i | 0 <= i < |defs| :: defs[i].key !in PROTOTYPE
  }

  /** What a board shows in all: the cards of its columns, if every count is a number. */
  lemma {:induction false} ShownTotalIs(defs: seq<ColumnDef>, cards: seq<Card>, showInherited: ShowInherited)
    ensures ShownTotal(CountedColumns(defs, Reduced(KeysOf(cards), showInherited)))
         == if NoneInherited(defs) then Some(TotalIn(defs, cards)) else None
  {
    if defs != [] {
      var counts, rest, last := Reduced(KeysOf(cards), showInherited), defs[..|defs| - 1], defs[|defs| - 1].key;
      ShownTotalIs(rest, cards, showInherited);
      assert CountedColumns(defs, counts)[..|rest|] == CountedColumns(rest, counts);
      ReducedCounts(KeysOf(cards), last, showInherited);
      CardsAreOccurrences(cards, last);
      assert NoneInherited(defs) <==> NoneInherited(rest) && last !in PROTOTYPE;
    }
  }

  /**
   The counts a board shows add up to its number of cards exactly when no column has an
   inherited name and no column that holds a card is declared twice.
   */
  lemma CountsAddUpIff(defs: seq<ColumnDef>, cards: seq<Card>, showInherited: ShowInherited)
    requires forall card | card in cards :: Declared(defs, card.columnKey)
    ensures ShownTotal(CountedColumns(defs, Reduced(KeysOf(cards), showInherited))) == Some(|cards|) <==>
      NoneInherited(defs) && forall card | card in cards :: !DeclaredTwice(defs, card.columnKey)
  {
    ShownTotalIs(defs, cards, showInherited);
    TotalsAddUpIff(defs, cards);
  }

  /** A board on which it goes wrong: two cards in a column `constructor` are counted as text. */
  lemma ConstructorColumn(caption: string, a: Card, b: Card, showInherited: ShowInherited)
    requires a.columnKey == "constructor" && b.columnKey == "constructor"
    ensures CountedColumns([ColumnDef("constructor", caption)], Reduced(KeysOf([a, b]), showInherited))
         == [Column("constructor", caption, Characters(showInherited("constructor") + "11"))]
  {
    var keys := KeysOf([a, b]);
    assert keys == ["constructor", "constructor"];
    assert keys[..1] == ["constructor"] && keys[..1][..0] == [];
    assert Occurrences(keys[..1], "constructor") == 1 && Occurrences(keys, "constructor") == 2;
    assert Ones(1) == Ones(0) + "1" == "1" && Ones(2) == Ones(1) + "1" == "11";
    assert |"constructor"| == 11 && |PROTO| == 9;
    assert "constructor" in PROTOTYPE;
    ReducedCounts(keys, "constructor", showInherited);
    assert Count(Reduced(keys, showInherited), "constructor") == Characters(showInherited("constructor") + "11");
  }

  // ---------------------------------------------------------------------------
  // Table from payloads
  // ---------------------------------------------------------------------------

  datatype TableColumn = TableColumn(key: string, caption: string, linkKey: Option<string>)

  datatype Table = Table(columns: seq<TableColumn>, rows: seq<Object>)

  const SOURCE_COLUMN := TableColumn("_case_id", "Source case", Some("_case_href"))

  function ColumnsOf(c: Carrier): (columns: seq<TableColumn>)
  {
    var objects := ArrayOfObjects(Get(Fields(c.value), "columns"));
    seq(|objects|, i requires 0 <= i < |objects| =>
      TableColumn(OrElse(AsString(Get(objects[i], "key")), "col"),
                  OrElse(AsString(Get(objects[i], "label")), ""), None))
  }

  /** The columns of the first case that declares any. */
  function FirstColumns(carriers: seq<Carrier>): seq<TableColumn> {
    if carriers == [] then []
    else
      var before := FirstColumns(carriers[..|carriers| - 1]);
      if before != [] then before else ColumnsOf(carriers[|carriers| - 1])
  }

  function Enriched(row: Object, c: Carrier): Object {
    if c.caseHref.None? then row
    else row["_case_id" := Str(OrElse(c.caseId, ""))]["_case_href" := Str(c.caseHref.value)]
  }

  function RowObjects(c: Carrier): seq<Object> {
    ArrayOfObjects(Get(Fields(c.value), "rows"))
  }

  function RowsOf(c: Carrier): (rows: seq<Object>)
    ensures |rows| == |RowObjects(c)|
  {
    seq(|RowObjects(c)|, i requires 0 <= i < |RowObjects(c)| => Enriched(RowObjects(c)[i], c))
  }

  function AllRows(carriers: seq<Carrier>): seq<Object> {
    if carriers == [] then []
    else AllRows(carriers[..|carriers| - 1]) + RowsOf(carriers[|carriers| - 1])
  }

  /** Some row links to its case. */
  ghost predicate AnyLink(carriers: seq<Carrier>) {
    exists i :: 0 <= i < |carriers| && carriers[i].caseHref.Some? && RowObjects(carriers[i]) != []
  }

  /** What a row of the table may be: an object of its case, linked to the case's trace if there is a link. */
  ghost predicate RowFrom(row: Object, o: Object, c: Carrier) {
    if c.caseHref.None? then row == o
    else
      && Get(row, "_case_href") == Str(c.caseHref.value)
      && Get(row, "_case_id") == Str(if c.caseId.Some? then c.caseId.value else "")
      && forall key | key != "_case_href" && key != "_case_id" ::
           (key in row <==> key in o) && Get(row, key) == Get(o, key)
  }

  lemma {:induction false} RowsSay(carriers: seq<Carrier>)
    ensures forall row | row in AllRows(carriers) ::
      exists c, o :: c in carriers && o in ArrayOfObjects(Get(Fields(c.value), "rows")) && RowFrom(row, o, c)
  {
    if carriers != [] {
      var c := carriers[|carriers| - 1];
      RowsSay(carriers[..|carriers| - 1]);
      assert c in carriers;
      forall row | row in RowsOf(c) ensures exists o :: o in RowObjects(c) && RowFrom(row, o, c) {
        var i :| 0 <= i < |RowObjects(c)| && row == Enriched(RowObjects(c)[i], c);
        assert |"_case_href"| == 10 && |"_case_id"| == 8;
        assert RowObjects(c)[i] in RowObjects(c) && RowFrom(row, RowObjects(c)[i], c);
      }
    }
  }

  /** The columns of a case, key by key. */
  lemma ColumnsSay(c: Carrier)
    ensures
      var objects := ArrayOfObjects(Get(Fields(c.value), "columns"));
      && |ColumnsOf(c)| == |objects|
      && forall i | 0 <= i < |objects| ::
           && (if Get(objects[i], "key").Str? then Get(objects[i], "key") == Str(ColumnsOf(c)[i].key)
               else ColumnsOf(c)[i].key == "col")
           && (if Get(objects[i], "label").Str? then Get(objects[i], "label") == Str(ColumnsOf(c)[i].caption)
               else ColumnsOf(c)[i].caption == "")
           && ColumnsOf(c)[i].linkKey == None
  {
  }

  /** The inner loop: one case's rows, each linked to its trace if there is one. */
  method AddRows(before: seq<Object>, c: Carrier) returns (rows: seq<Object>)
    ensures rows == before + RowsOf(c)
  {
    rows := before;
    var objects := RowObjects(c);
    for j := 0 to |objects|
      invariant rows == before + RowsOf(c)[..j]
    {
      var enriched := objects[j];
      if c.caseHref.Some? {
        enriched := enriched["_case_id" := Str(OrElse(c.caseId, ""))];
        enriched := enriched["_case_href" := Str(c.caseHref.value)];
      }
      rows := rows + [enriched];
    }
    assert RowsOf(c)[..|objects|] == RowsOf(c);
  }

  /** `payloadToTableView`. */
  method PayloadToTableView(carriers: seq<Carrier>) returns (view: View<Table>)
    ensures view.Empty? <==> FirstColumns(carriers) == [] || AllRows(carriers) == []
    ensures view.Shown? ==> view.data.rows == AllRows(carriers)
    ensures view.Shown? && AnyLink(carriers) ==>
      view.data.columns == FirstColumns(carriers) + [TableColumn("_case_id", "Source case", Some("_case_href"))]
    ensures view.Shown? && !AnyLink(carriers) ==> view.data.columns == FirstColumns(carriers)
  {
    var columns: seq<TableColumn> := [];
    var rows: seq<Object> := [];
    var anyHref := false;
    for i := 0 to |carriers|
      invariant columns == FirstColumns(carriers[..i])
      invariant rows == AllRows(carriers[..i])
      invariant anyHref <==> exists k :: 0 <= k < i && carriers[k].caseHref.Some? && RowObjects(carriers[k]) != []
    {
      assert carriers[..i + 1][..i] == carriers[..i];
      var c := carriers[i];
      if c.value.Dict? {
        if columns == [] {
          columns := ColumnsOf(c);
        }
        rows := AddRows(rows, c);
        if c.caseHref.Some? && RowObjects(c) != [] {
          anyHref := true;
        }
      }
    }
    assert carriers[..|carriers|] == carriers;
    if columns == [] || rows == [] {
      return Empty;
    }
    if anyHref {
      columns := columns + [SOURCE_COLUMN];
    }
    view := Shown(Table(columns, rows));
  }

  // ---------------------------------------------------------------------------
  // The fixed views over case outputs
  // ---------------------------------------------------------------------------

  datatype CaseOutput = CaseOutput(caseId: string, passed: bool, isTestFold: bool)

  /** The comparator: a passed case may not precede a failed one. */
  predicate FailedFirst(a: CaseOutput, b: CaseOutput) {
    !a.passed || b.passed
  }

  function HasPassed(passed: bool): CaseOutput -> bool {
    (it: CaseOutput) => it.passed == passed
  }

  lemma {:induction false} PartitionSizes(rows: seq<CaseOutput>)
    ensures |Where(rows, HasPassed(false))| + |Where(rows, HasPassed(true))| == |rows|
  {
    if rows != [] {
      PartitionSizes(rows[..|rows| - 1]);
    }
  }

  /** `rows.sort(...)` of the case table is the stable partition: all failed cases, then all passed ones. */
  lemma SortingPartitions(rows: seq<CaseOutput>)
    ensures Pick(rows, Order(rows, FailedFirst))
         == Pick(rows, Where(rows, HasPassed(false))) + Pick(rows, Where(rows, HasPassed(true)))
  {
    var failed, passed := Where(rows, HasPassed(false)), Where(rows, HasPassed(true));
    PartitionSizes(rows);
    PartitionIsStable(rows, failed, passed);
    TotalOrderOfCases();
    OrderIsStable(rows, FailedFirst);
    StableOrderIsUnique(Order(rows, FailedFirst), failed + passed, rows, FailedFirst);
    PickConcat(rows, failed, passed);
  }

  lemma TotalOrderOfCases()
    ensures TotalPreorder(FailedFirst)
  {
  }

  lemma PickConcat(rows: seq<CaseOutput>, p: seq<nat>, q: seq<nat>)
    requires Positions(p, |rows|) && Positions(q, |rows|)
    ensures Positions(p + q, |rows|) && Pick(rows, p + q) == Pick(rows, p) + Pick(rows, q)
  {
  }

  lemma PartitionIsStable(rows: seq<CaseOutput>, failed: seq<nat>, passed: seq<nat>)
    requires Positions(failed, |rows|) && Positions(passed, |rows|) && |failed| + |passed| == |rows|
    requires forall i, j | 0 <= i < j < |failed| :: failed[i] < failed[j]
    requires forall i, j | 0 <= i < j < |passed| :: passed[i] < passed[j]
    requires forall k: nat :: k in failed <==> k < |rows| && !rows[k].passed
    requires forall k: nat :: k in passed <==> k < |rows| && rows[k].passed
    ensures StableOrder(failed + passed, rows, FailedFirst)
  {
    assert forall i | 0 <= i < |failed| :: failed[i] in failed;
    assert forall i | 0 <= i < |passed| :: passed[i] in passed;
    PartitionRanked(rows, failed, passed);
    forall k: nat | k < |rows| ensures k in failed + passed {
      assert k in failed || k in passed;
    }
  }

  lemma PartitionRanked(rows: seq<CaseOutput>, failed: seq<nat>, passed: seq<nat>)
    requires Positions(failed, |rows|) && Positions(passed, |rows|)
    requires forall i, j | 0 <= i < j < |failed| :: failed[i] < failed[j]
    requires forall i, j | 0 <= i < j < |passed| :: passed[i] < passed[j]
    requires forall i | 0 <= i < |failed| :: !rows[failed[i]].passed
    requires forall i | 0 <= i < |passed| :: rows[passed[i]].passed
    ensures Positions(failed + passed, |rows|) && Ranked(failed + passed, rows, FailedFirst)
  {
  }

  const FAILED_TEST := "failed-test"
  const FAILED_TRAIN := "failed-train"
  const PASSED := "passed"

  function ColumnKey(it: CaseOutput): string {
    if !it.passed && it.isTestFold then FAILED_TEST else if !it.passed then FAILED_TRAIN else PASSED
  }

  function CasesIn(items: seq<CaseOutput>, key: string): nat {
    if items == [] then 0
    else CasesIn(items[..|items| - 1], key) + if ColumnKey(items[|items| - 1]) == key then 1 else 0
  }

  lemma KeysDiffer()
    ensures FAILED_TEST != FAILED_TRAIN && FAILED_TRAIN != PASSED && FAILED_TEST != PASSED
  {
    assert |FAILED_TEST| == 11 && |FAILED_TRAIN| == 12 && |PASSED| == 6;
  }

  lemma KeysAreNotInherited()
    ensures FAILED_TEST !in PROTOTYPE && FAILED_TRAIN !in PROTOTYPE && PASSED !in PROTOTYPE
  {
    assert FAILED_TEST[0] == 'f' && FAILED_TRAIN[0] == 'f' && PASSED[0] == 'p';
    assert |PASSED| == 6 && |"propertyIsEnumerable"| == 20;
    assert forall name | name in PROTOTYPE :: name[0] != 'f' && (name[0] == 'p' ==> |name| == 20);
  }

  /** Every case sits in one of the three columns. */
  lemma {:induction false} EveryCaseInOneColumn(items: seq<CaseOutput>)
    ensures CasesIn(items, FAILED_TEST) + CasesIn(items, FAILED_TRAIN) + CasesIn(items, PASSED) == |items|
  {
    if items != [] {
      EveryCaseInOneColumn(items[..|items| - 1]);
      KeysDiffer();
    }
  }

  function CaseKeys(items: seq<CaseOutput>): (keys: seq<string>)
    ensures |keys| == |items|
  {
    seq(|items|, i requires 0 <= i < |items| => ColumnKey(items[i]))
  }

  lemma {:induction false} CasesAreOccurrences(items: seq<CaseOutput>, key: string)
    ensures Occurrences(CaseKeys(items), key) == CasesIn(items, key)
  {
    if items != [] {
      CasesAreOccurrences(items[..|items| - 1], key);
      assert CaseKeys(items)[..|items| - 1] == CaseKeys(items[..|items| - 1]);
    }
  }

  /** The failed cases of one fold. */
  ghost function FailedIn(items: seq<CaseOutput>, isTestFold: bool): nat {
    if items == [] then 0
    else
      var last := items[|items| - 1];
      FailedIn(items[..|items| - 1], isTestFold) + if !last.passed && last.isTestFold == isTestFold then 1 else 0
  }

  ghost function PassedIn(items: seq<CaseOutput>): nat {
    if items == [] then 0
    else PassedIn(items[..|items| - 1]) + if items[|items| - 1].passed then 1 else 0
  }

  lemma {:induction false} CasesByOutcome(items: seq<CaseOutput>)
    ensures CasesIn(items, FAILED_TEST) == FailedIn(items, true)
    ensures CasesIn(items, FAILED_TRAIN) == FailedIn(items, false)
    ensures CasesIn(items, PASSED) == PassedIn(items)
  {
    if items != [] {
      CasesByOutcome(items[..|items| - 1]);
      KeysDiffer();
    }
  }

  /** The counts of `resolveKanbanBoard`: numbers, because the three keys are the code's own. */
  method TallyCases(items: seq<CaseOutput>, showInherited: ShowInherited)
    returns (failedTest: Value, failedTrain: Value, passed: Value)
    ensures failedTest == Number(FailedIn(items, true)) && failedTrain == Number(FailedIn(items, false))
    ensures passed == Number(PassedIn(items))
    ensures FailedIn(items, true) + FailedIn(items, false) + PassedIn(items) == |items|
  {
    CasesByOutcome(items);
    var counts := Tally(CaseKeys(items), showInherited);
    failedTest, failedTrain, passed := Count(counts, FAILED_TEST), Count(counts, FAILED_TRAIN), Count(counts, PASSED);
    KeysAreNotInherited();
    CaseCount(items, FAILED_TEST, showInherited);
    CaseCount(items, FAILED_TRAIN, showInherited);
    CaseCount(items, PASSED, showInherited);
    EveryCaseInOneColumn(items);
  }

  lemma CaseCount(items: seq<CaseOutput>, key: string, showInherited: ShowInherited)
    requires key !in PROTOTYPE
    ensures Count(Reduced(CaseKeys(items), showInherited), key) == Number(CasesIn(items, key))
  {
    CountIsRightIff(CaseKeys(items), key, showInherited);
    CasesAreOccurrences(items, key);
  }
}
