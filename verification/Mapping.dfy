/** Clearinghouse rows to positions. */
module Mapping {
  import opened Enums
  import opened Outcomes

  datatype RawRow = RawRow(coin: string, szi: real, leverage: Option<int>)

  datatype ExchangePosition = ExchangePosition(symbol: string, side: PositionSide, size: real, leverage: Option<int>)

  function MapSziToSide(szi: real): PositionSide {
    if szi > 0.0 then Long else if szi < 0.0 then Short else Flat
  }

  predicate EndsWith(s: string, suffix: string) {
    |suffix| <= |s| && s[|s|-|suffix|..] == suffix
  }

  function ToPairSymbol(coin: string, configuredPair: string): string {
    if coin == "" || '-' in coin then coin
    else if EndsWith(configuredPair, "-USD") then coin + "-USD"
    else coin
  }

  function MapPosition(row: RawRow, configuredPair: string): ExchangePosition {
    ExchangePosition(ToPairSymbol(row.coin, configuredPair), MapSziToSide(row.szi),
                     if row.szi < 0.0 then -row.szi else row.szi, row.leverage)
  }

  /** The mapped rows with a nonzero size, in order. */
  function NonFlat(rows: seq<RawRow>, configuredPair: string): (ps: seq<ExchangePosition>)
    ensures forall p :: p in ps ==> p.side in {Long, Short} && p.size > 0.0
    ensures ps == [] <==> forall row :: row in rows ==> row.szi == 0.0
  {
    if rows == [] then []
    else
      var n := |rows| - 1;
      assert rows == rows[..n] + [rows[n]];
      NonFlat(rows[..n], configuredPair) +
      (if rows[n].szi == 0.0 then [] else [MapPosition(rows[n], configuredPair)])
  }

  /** Some symbol has both a LONG and a SHORT row. */
  ghost predicate TwoSided(ps: seq<ExchangePosition>) {
    exists i, j :: 0 <= i < |ps| && 0 <= j < |ps| && ps[i].symbol == ps[j].symbol && ps[i].side == Long && ps[j].side == Short
  }

  /** The sides on which a symbol has rows. */
  function Sides(ps: seq<ExchangePosition>, symbol: string): set<PositionSide> {
    if ps == [] then {}
    else Sides(ps[..|ps|-1], symbol) + (if ps[|ps|-1].symbol == symbol then {ps[|ps|-1].side} else {})
  }

  lemma {:induction false} SidesAre(ps: seq<ExchangePosition>, symbol: string, side: PositionSide)
    ensures side in Sides(ps, symbol) <==> exists i :: 0 <= i < |ps| && ps[i].symbol == symbol && ps[i].side == side
  {
    if ps != [] {
      var n := |ps| - 1;
      SidesAre(ps[..n], symbol, side);
      if exists i :: 0 <= i < |ps| && ps[i].symbol == symbol && ps[i].side == side {
        var i :| 0 <= i < |ps| && ps[i].symbol == symbol && ps[i].side == side;
        assert i < n ==> ps[..n][i].symbol == symbol;
      }
      if side in Sides(ps[..n], symbol) {
        var i :| 0 <= i < n && ps[..n][i].symbol == symbol && ps[..n][i].side == side;
        assert ps[i].symbol == symbol;
      }
    }
  }

  lemma TwoSidedIsASymbolWithBothSides(ps: seq<ExchangePosition>)
    ensures TwoSided(ps) <==> exists symbol :: HasBoth(ps, symbol)
  {
    if TwoSided(ps) {
      var i, j :| 0 <= i < |ps| && 0 <= j < |ps| && ps[i].symbol == ps[j].symbol && ps[i].side == Long && ps[j].side == Short;
      SidesAre(ps, ps[i].symbol, Long);
      SidesAre(ps, ps[i].symbol, Short);
      assert HasBoth(ps, ps[i].symbol);
    }
    if exists symbol :: HasBoth(ps, symbol) {
      var symbol :| HasBoth(ps, symbol);
      SidesAre(ps, symbol, Long);
      SidesAre(ps, symbol, Short);
      var i :| 0 <= i < |ps| && ps[i].symbol == symbol && ps[i].side == Long;
      var j :| 0 <= j < |ps| && ps[j].symbol == symbol && ps[j].side == Short;
      assert ps[i].symbol == ps[j].symbol;
    }
  }

  predicate BothIn(sides: set<PositionSide>) {
    Long in sides && Short in sides
  }

  predicate HasBoth(ps: seq<ExchangePosition>, symbol: string) {
    BothIn(Sides(ps, symbol))
  }

  ghost predicate Grouped(bySymbol: map<string, set<PositionSide>>, ps: seq<ExchangePosition>) {
    forall symbol :: Sides(ps, symbol) == if symbol in bySymbol then bySymbol[symbol] else {}
  }

  lemma NothingGrouped()
    ensures Grouped(map[], [])
  {
  }

  lemma GroupedNext(bySymbol: map<string, set<PositionSide>>, ps: seq<ExchangePosition>, p: ExchangePosition)
    requires Grouped(bySymbol, ps)
    ensures var sides := if p.symbol in bySymbol then bySymbol[p.symbol] else {};
            Grouped(bySymbol[p.symbol := sides + {p.side}], ps + [p])
  {
    assert (ps + [p])[..|ps|] == ps;
  }

  /** The first loop: keep the nonzero rows and group their sides by symbol. */
  method Group(rows: seq<RawRow>, configuredPair: string)
    returns (mapped: seq<ExchangePosition>, bySymbol: map<string, set<PositionSide>>)
    ensures mapped == NonFlat(rows, configuredPair) && Grouped(bySymbol, mapped)
  {
    hide Sides, Grouped;
    mapped, bySymbol := [], map[];
    NothingGrouped();
    for k := 0 to |rows|
      invariant mapped == NonFlat(rows[..k], configuredPair) && Grouped(bySymbol, mapped)
    {
      assert rows[..k+1][..k] == rows[..k];
      var position := MapPosition(rows[k], configuredPair);
      if position.size != 0.0 && position.side != Flat {
        var sides := if position.symbol in bySymbol then bySymbol[position.symbol] else {};
        assert (mapped + [position])[..|mapped|] == mapped;
        GroupedNext(bySymbol, mapped, position);
        mapped := mapped + [position];
        bySymbol := bySymbol[position.symbol := sides + {position.side}];
      }
    }
    assert rows[..|rows|] == rows;
  }

  /** `map_clearinghouse_positions`.  None is OneWayError, raised exactly for a two-sided account. */
  method MapClearinghousePositions(rows: seq<RawRow>, configuredPair: string) returns (r: Option<seq<ExchangePosition>>)
    ensures r.None? <==> TwoSided(NonFlat(rows, configuredPair))
    ensures r.Some? ==> r.value == NonFlat(rows, configuredPair)
  {
    var mapped, bySymbol := Group(rows, configuredPair);
    TwoSidedIsASymbolWithBothSides(mapped);
    var symbols := bySymbol.Keys;
    while symbols != {}
      invariant symbols <= bySymbol.Keys
      invariant forall symbol :: symbol in bySymbol && symbol !in symbols ==> !BothIn(bySymbol[symbol])
      decreases |symbols|
    {
      var symbol :| symbol in symbols;
      if BothIn(bySymbol[symbol]) {
        assert HasBoth(mapped, symbol);
        return None;
      }
      symbols := symbols - {symbol};
    }
    forall symbol
      ensures !HasBoth(mapped, symbol)
    {
      assert Sides(mapped, symbol) == if symbol in bySymbol then bySymbol[symbol] else {};
    }
    return Some(mapped);
  }

  /** Symbols other than the configured pair, in order. */
  function Foreign(ps: seq<ExchangePosition>, pair: string): (symbols: seq<string>)
    ensures symbols == [] <==> forall p :: p in ps ==> p.symbol == pair
  {
    if ps == [] then []
    else
      assert ps == ps[..|ps|-1] + [ps[|ps|-1]];
      Foreign(ps[..|ps|-1], pair) + (if ps[|ps|-1].symbol != pair then [ps[|ps|-1].symbol] else [])
  }

  /** No mapped row of the pair and none of any other symbol: the account holds nothing at all. */
  lemma FlatEverywhere(rows: seq<RawRow>, pair: string)
    requires Foreign(NonFlat(rows, pair), pair) == []
    requires forall p :: p in NonFlat(rows, pair) ==> p.symbol != pair
    ensures forall row :: row in rows ==> row.szi == 0.0
  {
    assert forall p :: p in NonFlat(rows, pair) ==> p.symbol == pair;
  }

  // ---------------------------------------------------------------- what the mapping says

  /** A row becomes a LONG of its size when positive, a SHORT of the opposite size when negative, and
      nothing when zero; longer lists are mapped piece by piece. */
  lemma RowsMapBySign(rows: seq<RawRow>, more: seq<RawRow>, row: RawRow, pair: string)
    ensures var symbol := ToPairSymbol(row.coin, pair);
            NonFlat([row], pair) ==
            if row.szi > 0.0 then [ExchangePosition(symbol, Long, row.szi, row.leverage)]
            else if row.szi < 0.0 then [ExchangePosition(symbol, Short, -row.szi, row.leverage)]
            else []
    ensures NonFlat(rows + more, pair) == NonFlat(rows, pair) + NonFlat(more, pair)
  {
    hide ToPairSymbol;
    assert [row][..0] == [];
    PieceByPiece(rows, more, pair);
  }

  lemma NoRows(pair: string)
    ensures NonFlat([], pair) == []
  {
  }

  lemma LastRow(rows: seq<RawRow>, pair: string)
    requires rows != []
    ensures NonFlat(rows, pair) ==
            NonFlat(rows[..|rows|-1], pair) + (if rows[|rows|-1].szi == 0.0 then [] else [MapPosition(rows[|rows|-1], pair)])
  {
    hide MapPosition;
  }

  lemma {:induction false} PieceByPiece(rows: seq<RawRow>, more: seq<RawRow>, pair: string)
    ensures NonFlat(rows + more, pair) == NonFlat(rows, pair) + NonFlat(more, pair)
    decreases |more|
  {
    hide MapPosition, NonFlat;
    if more == [] {
      assert rows + more == rows;
      NoRows(pair);
    } else {
      var n := |more| - 1;
      var all := rows + more;
      PieceByPiece(rows, more[..n], pair);
      assert all[..|all|-1] == rows + more[..n];
      LastRow(all, pair);
      LastRow(more, pair);
      assert all[|all|-1] == more[n];
    }
  }

  /** A coin gets the quote of a USD pair, unless it already is a pair. */
  lemma PairSymbols(coin: string, base: string)
    ensures '-' in coin || coin == "" ==> ToPairSymbol(coin, base + "-USD") == coin
    ensures coin != "" && '-' !in coin ==> ToPairSymbol(coin, base + "-USD") == coin + "-USD"
    ensures '-' !in base ==> ToPairSymbol(coin, base) == coin
  {
    assert (base + "-USD")[|base|..] == "-USD";
    if EndsWith(base, "-USD") {
      assert base[|base|-4] == base[|base|-4..][0] == '-';
    }
  }

  /** Every kept position comes from a row of its symbol, sign and size. */
  lemma {:induction false} KeptRowComesFrom(rows: seq<RawRow>, pair: string, k: nat)
    requires k < |NonFlat(rows, pair)|
    ensures var p := NonFlat(rows, pair)[k];
            exists row :: row in rows && ToPairSymbol(row.coin, pair) == p.symbol
                          && (if row.szi > 0.0 then (p.side, p.size) == (Long, row.szi)
                              else row.szi < 0.0 && (p.side, p.size) == (Short, -row.szi))
  {
    hide ToPairSymbol;
    var n := |rows| - 1;
    if k < |NonFlat(rows[..n], pair)| {
      KeptRowComesFrom(rows[..n], pair, k);
    } else {
      assert rows[n] in rows;
    }
  }
}
