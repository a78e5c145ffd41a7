/** From a header on disk to a search: what the store wrote of a header is what a card filter finds. */
module HeaderSearch {
  import opened Options
  import T = Tables
  import opened FrameStore
  import opened SqlMeaning
  import FilterMeaning
  import opened FilterAnswers
  import opened Query
  import Numerals

  function TextOrNull(s: Option<string>): Value {
    match s
    case Some(x) => TextV(x)
    case None => NullV
  }

  /** A row of frame_keywords, as the server sees it. */
  function CardRow(f: int, c: T.Card): Row {
    map["frame_id" := NumV(f as real), "keyword" := TextV(c.keyword), "value" := TextOrNull(c.value)]
  }

  /** Its table holds the cards of the tables, in whatever order. */
  ghost predicate ShowsCards(w: World, u: T.Tables) {
    && (forall f, k :: f in u.cards && 0 <= k < |u.cards[f]| ==>
          CardRow(f, u.cards[f][k]) in TableRows(w, "frame_keywords"))
    && forall i :: 0 <= i < |TableRows(w, "frame_keywords")| ==>
         exists f, k :: f in u.cards && 0 <= k < |u.cards[f]|
             && TableRows(w, "frame_keywords")[i] == CardRow(f, u.cards[f][k])
  }

  /** The frame that holds image h of the file. */
  ghost function FrameOf(u: T.Tables, info: FileInfo, h: Hdu): int
    requires HeaderHeld(u, info, h)
  {
    T.FrameAt(u, T.IdAt(u, info.root, info.place.hash), h.index)
  }

  /** The keyword of a card meets kw, and its value is of the kind asked for. */
  ghost predicate CardMeets(w: World, raw: RawCard, kw: string, kind: Value -> bool) {
    && w.collate("=", TextV(if |raw.keyword| <= 72 then raw.keyword else raw.keyword[..72]), TextV(kw))
    && kind(if raw.value == "" then NullV else TextV(if |raw.value| <= 256 then raw.value else raw.value[..256]))
  }

  lemma HeldCard(u: T.Tables, info: FileInfo, h: Hdu, k: nat)
    requires HeaderHeld(u, info, h) && k < |h.cards|
    ensures var f := FrameOf(u, info, h);
            f in u.cards && |u.cards[f]| == |h.cards| && CardHolds(u.cards[f][k], h.cards[k])
  {
    hide CardHolds;
  }

  /** A row of the card table meets the search. */
  ghost predicate RowMeets(w: World, row: Row, r: Row, kw: string, kind: Value -> bool) {
    && FilterMeaning.Holds(w, "=", Get(r, "frame_id"), Get(row, "frame_id"))
    && FilterMeaning.Holds(w, "=", Get(r, "keyword"), TextV(kw)) && kind(Get(r, "value"))
  }

  lemma CardRowMeets(w: World, row: Row, f: int, g: int, c: T.Card, kw: string, kind: Value -> bool)
    requires Get(row, "frame_id") == NumV(f as real)
    ensures RowMeets(w, row, CardRow(g, c), kw, kind)
       <==> g == f && w.collate("=", TextV(c.keyword), TextV(kw)) && kind(TextOrNull(c.value))
  {
  }

  lemma HeldMeets(w: World, c: T.Card, raw: RawCard, kw: string, kind: Value -> bool)
    requires CardHolds(c, raw)
    ensures CardMeets(w, raw, kw, kind) <==> w.collate("=", TextV(c.keyword), TextV(kw)) && kind(TextOrNull(c.value))
  {
  }

  lemma HasMeets(w: World, row: Row, kw: string, kind: Value -> bool)
    ensures HasCard(w, row, kw, kind) <==> exists i ::
              0 <= i < |TableRows(w, "frame_keywords")| && RowMeets(w, row, TableRows(w, "frame_keywords")[i], kw, kind)
  {
    var rows := TableRows(w, "frame_keywords");
    if i :| 0 <= i < |rows| && RowMeets(w, row, rows[i], kw, kind) {
      assert HasCard(w, row, kw, kind);
    }
    hide TableRows, FilterMeaning.Holds, Get;
  }

  /** A frame has a card of a kind in the database exactly when its header has one on disk. */
  lemma HeldCards(w: World, row: Row, u: T.Tables, info: FileInfo, h: Hdu, kw: string, kind: Value -> bool)
    requires HeaderHeld(u, info, h) && ShowsCards(w, u)
    requires Get(row, "frame_id") == NumV(FrameOf(u, info, h) as real)
    ensures HasCard(w, row, kw, kind) <==> exists k :: 0 <= k < |h.cards| && CardMeets(w, h.cards[k], kw, kind)
  {
    var f, rows := FrameOf(u, info, h), TableRows(w, "frame_keywords");
    HasMeets(w, row, kw, kind);
    hide HeaderHeld, FrameOf, HasCard, CardMeets, RowMeets, TableRows, Get, CardRow, CardHolds;
    if k :| 0 <= k < |h.cards| && CardMeets(w, h.cards[k], kw, kind) {
      HeldCard(u, info, h, k);
      HeldMeets(w, u.cards[f][k], h.cards[k], kw, kind);
      CardRowMeets(w, row, f, f, u.cards[f][k], kw, kind);
      assert CardRow(f, u.cards[f][k]) in rows;
      var i :| 0 <= i < |rows| && rows[i] == CardRow(f, u.cards[f][k]);
    }
    if i :| 0 <= i < |rows| && RowMeets(w, row, rows[i], kw, kind) {
      var g, k :| g in u.cards && 0 <= k < |u.cards[g]| && rows[i] == CardRow(g, u.cards[g][k]);
      CardRowMeets(w, row, f, g, u.cards[g][k], kw, kind);
      CardsNumber(u, info, h);
      HeldCard(u, info, h, k);
      HeldMeets(w, u.cards[f][k], h.cards[k], kw, kind);
    }
  }

  lemma CardsNumber(u: T.Tables, info: FileInfo, h: Hdu)
    requires HeaderHeld(u, info, h)
    ensures var f := FrameOf(u, info, h); f in u.cards ==> |u.cards[f]| == |h.cards|
  {
    hide CardHolds;
  }

  /** So a search for a keyword with a value selects a stored frame exactly when its header has such a card,
      as far as the columns are wide. */
  lemma StoredCardSelected(w: World, row: Row, u: T.Tables, info: FileInfo, h: Hdu, kw: string, s: string)
    requires HeaderHeld(u, info, h) && ShowsCards(w, u) && kw != ""
    requires Get(row, "frame_id") == NumV(FrameOf(u, info, h) as real)
    ensures Selects(w, row, JObj(One("keyword:" + kw, "eq", JStr(s)))) <==> exists k ::
              && 0 <= k < |h.cards|
              && CardMeets(w, h.cards[k], kw, (x: Value) => x.TextV? && w.collate("=", x, TextV(s)))
  {
    CardTextSelected(w, row, kw, "eq", s);
    hide Selects, HeaderHeld, ShowsCards;
    HeldCards(w, row, u, info, h, kw, (x: Value) => !x.NullV? && w.collate("=", x, TextV(s)));
  }

  /** And a search for a number compares what the server reads in the stored text. */
  lemma StoredNumberSelected(w: World, row: Row, u: T.Tables, info: FileInfo, h: Hdu, kw: string, d: real)
    requires HeaderHeld(u, info, h) && ShowsCards(w, u) && kw != "" && forall x: Value :: !w.decimal(x).TextV?
    requires Get(row, "frame_id") == NumV(FrameOf(u, info, h) as real)
    ensures Selects(w, row, JObj(One("keyword:" + kw, "lt", JNum(d)))) <==> exists k ::
              && 0 <= k < |h.cards|
              && CardMeets(w, h.cards[k], kw, (x: Value) => w.decimal(x).NumV? && w.decimal(x).x < Numerals.Shown(d))
  {
    CardNumberSelected(w, row, kw, "lt", d);
    hide Selects, HeaderHeld, ShowsCards, Numerals.Shown;
    HeldCards(w, row, u, info, h, kw, (x: Value) => w.decimal(x).NumV? && w.decimal(x).x < Numerals.Shown(d));
  }

  /** A card that fits the columns is found under its keyword and its value. */
  lemma StoredCardFound(w: World, row: Row, u: T.Tables, info: FileInfo, h: Hdu, k: nat)
    requires HeaderHeld(u, info, h) && ShowsCards(w, u) && forall x: string :: w.collate("=", TextV(x), TextV(x))
    requires Get(row, "frame_id") == NumV(FrameOf(u, info, h) as real)
    requires k < |h.cards| && 0 < |h.cards[k].keyword| <= 72 && 0 < |h.cards[k].value| <= 256
    ensures Selects(w, row, JObj(One("keyword:" + h.cards[k].keyword, "eq", JStr(h.cards[k].value))))
  {
    var kw, s := h.cards[k].keyword, h.cards[k].value;
    StoredCardSelected(w, row, u, info, h, kw, s);
    assert CardMeets(w, h.cards[k], kw, (x: Value) => x.TextV? && w.collate("=", x, TextV(s)));
    hide Selects, HeaderHeld, ShowsCards;
  }
}
