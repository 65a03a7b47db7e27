/** The player list of the converted tournament (`getPlayerGames`, `transformPlayerList`). */
module PlayerList {
  import opened Wrappers
  import opened Codes
  import opened Records

  /** Field codes of a player record. */
  const NameCode: string := "2000"
  const ClubCode: string := "2001"
  const TitleCode: string := "2002"
  const NationalRatingCode: string := "2003"
  const FideRatingCode: string := "2004"
  const FederationCode: string := "2006"
  const StartRankCode: string := "2021"
  const FinalRankCode: string := "2022"
  const PointsCode: string := "2025"
  const BuchholzCode: string := "2030"
  const BuchholzCut1Code: string := "2031"
  const SonnebornBergerCode: string := "2032"

  /** Opponent name of a game whose opponent key is unknown. */
  const ByeName: string := "spielfrei"

  /** One entry of a player's game history. `opponentId == None` is `null`. */
  datatype Game = Game(
    round: int,
    opponentId: Option<Parsed>,
    opponentName: Option<string>,
    result: string,
    color: Color)

  datatype Rating = Rating(national: Option<int>, fide: Option<int>)

  /** Points and tiebreaks keep the text of their fields (see README). */
  datatype Tiebreaks = Tiebreaks(
    buchholz: Option<string>,
    buchholzCut1: Option<string>,
    sonnebornBerger: Option<string>)

  datatype Player = Player(
    id: Parsed,
    startRank: Parsed,
    finalRank: Parsed,
    name: string,
    title: Option<string>,
    club: Option<string>,
    federation: Option<string>,
    rating: Rating,
    points: Option<string>,
    tiebreaks: Tiebreaks,
    games: seq<Game>)

  /** The history entry built from one of the player's own pairing records: the
      opponent is looked up among all player records by start key. */
  function GameOf(rec: PairingRecord, index: map<string, RawRecord>): (g: Game)
    ensures g.round == rec.round
    ensures g.color == White <==> rec.color == WhiteCode
    ensures rec.opponent !in index ==> g.opponentId == None && g.opponentName == Some(ByeName)
    ensures rec.opponent in index ==>
      g.opponentId == Some(ParseField(Field(index[rec.opponent], StartRankCode)))
      && g.opponentName == Field(index[rec.opponent], NameCode)
    ensures g.result == GetResult(rec.result, g.color)
  {
    var color := GetColor(rec.color);
    var opponent := if rec.opponent in index then Some(index[rec.opponent]) else None;
    Game(rec.round,
         if opponent.Some? then Some(ParseField(Field(opponent.value, StartRankCode))) else None,
         if opponent.Some? then Field(opponent.value, NameCode) else Some(ByeName),
         GetResult(rec.result, color),
         color)
  }

  /** `allPairings.filter(p => p.player === playerId)`; a player without a key
      (`undefined`) owns no record. */
  function OwnedBy(key: Option<string>, pairings: seq<PairingRecord>): (r: seq<PairingRecord>)
    ensures |r| <= |pairings|
    ensures forall rec {:trigger multiset(r)[rec]} :: multiset(r)[rec] == if key == Some(rec.player) then multiset(pairings)[rec] else 0
  {
    if pairings == [] then []
    else
      assert pairings == [pairings[0]] + pairings[1..];
      (if key == Some(pairings[0].player) then [pairings[0]] else []) + OwnedBy(key, pairings[1..])
  }

  lemma {:induction false} OwnedByMember(key: Option<string>, pairings: seq<PairingRecord>, rec: PairingRecord)
    requires rec in OwnedBy(key, pairings)
    ensures rec in pairings && key == Some(rec.player)
  {
    if rec != pairings[0] || key != Some(rec.player) {
      OwnedByMember(key, pairings[1..], rec);
    }
  }

  /** The filter keeps the source order: filtering a concatenation filters each part. */
  lemma {:induction false} OwnedByAppend(key: Option<string>, a: seq<PairingRecord>, b: seq<PairingRecord>)
    ensures OwnedBy(key, a + b) == OwnedBy(key, a) + OwnedBy(key, b)
  {
    if a == [] {
      assert a + b == b;
    } else {
      OwnedByAppend(key, a[1..], b);
      OwnedByAppendStep(key, a, b);
    }
  }

  /** One record in front of a concatenation. */
  lemma OwnedByAppendStep(key: Option<string>, a: seq<PairingRecord>, b: seq<PairingRecord>)
    requires a != []
    requires OwnedBy(key, a[1..] + b) == OwnedBy(key, a[1..]) + OwnedBy(key, b)
    ensures OwnedBy(key, a + b) == OwnedBy(key, a) + OwnedBy(key, b)
  {
    var head := if key == Some(a[0].player) then [a[0]] else [];
    assert (a + b)[1..] == a[1..] + b;
    assert OwnedBy(key, a + b) == head + OwnedBy(key, a[1..] + b);
    assert OwnedBy(key, a) == head + OwnedBy(key, a[1..]);
    ConcatAssoc(head, OwnedBy(key, a[1..]), OwnedBy(key, b));
  }

  lemma ConcatAssoc(x: seq<PairingRecord>, y: seq<PairingRecord>, z: seq<PairingRecord>)
    ensures x + (y + z) == (x + y) + z
  {
  }

  function GamesOf(recs: seq<PairingRecord>, index: map<string, RawRecord>): (gs: seq<Game>)
    ensures |gs| == |recs|
    ensures forall i :: 0 <= i < |recs| ==> gs[i] == GameOf(recs[i], index)
  {
    seq(|recs|, i requires 0 <= i < |recs| => GameOf(recs[i], index))
  }

  predicate SortedByRound(gs: seq<Game>) {
    forall i, j :: 0 <= i < j < |gs| ==> gs[i].round <= gs[j].round
  }

  /** The games of round `r`, in the order they stand in `gs`. */
  function RoundSlice(gs: seq<Game>, r: int): (s: seq<Game>)
  {
    if gs == [] then []
    else (if gs[0].round == r then [gs[0]] else []) + RoundSlice(gs[1..], r)
  }

  lemma SortedCons(g: Game, gs: seq<Game>)
    requires SortedByRound(gs) && (gs == [] || g.round <= gs[0].round)
    ensures SortedByRound([g] + gs)
  {
    forall i, j | 0 <= i < j < |gs| + 1 ensures ([g] + gs)[i].round <= ([g] + gs)[j].round {
      if i == 0 && j > 1 {
        assert gs[0].round <= gs[j - 1].round;
      }
    }
  }

  /** Places `g` in front of the first game whose round is not smaller. */
  function Insert(g: Game, gs: seq<Game>): (r: seq<Game>)
    requires SortedByRound(gs)
    ensures SortedByRound(r)
    ensures multiset(r) == multiset(gs) + multiset{g}
    ensures r[0] == g || (gs != [] && r[0] == gs[0])
  {
    if gs == [] || g.round <= gs[0].round then
      SortedCons(g, gs);
      [g] + gs
    else
      var rest := Insert(g, gs[1..]);
      assert gs == [gs[0]] + gs[1..];
      SortedCons(gs[0], rest);
      [gs[0]] + rest
  }

  /** `Array.prototype.sort` by ascending round: an insertion sort, stable like the
      JavaScript sort (see SortStable). */
  function SortByRound(gs: seq<Game>): (r: seq<Game>)
    ensures SortedByRound(r)
    ensures multiset(r) == multiset(gs)
    ensures |r| == |gs|
  {
    if gs == [] then []
    else
      assert gs == [gs[0]] + gs[1..];
      var r := Insert(gs[0], SortByRound(gs[1..]));
      assert |r| == |multiset(r)|;
      r
  }

  lemma RoundSliceCons(g: Game, gs: seq<Game>, r: int)
    ensures RoundSlice([g] + gs, r) == (if g.round == r then [g] else []) + RoundSlice(gs, r)
  {
    assert ([g] + gs)[1..] == gs;
  }

  lemma {:induction false} InsertStable(g: Game, gs: seq<Game>, r: int)
    requires SortedByRound(gs)
    ensures RoundSlice(Insert(g, gs), r) == (if g.round == r then [g] else []) + RoundSlice(gs, r)
  {
    if gs == [] || g.round <= gs[0].round {
      RoundSliceCons(g, gs, r);
    } else {
      var tail := gs[1..];
      var rest := Insert(g, tail);
      assert Insert(g, gs) == [gs[0]] + rest;
      InsertStable(g, tail, r);
      RoundSliceCons(gs[0], rest, r);
      RoundSliceCons(gs[0], tail, r);
      assert gs == [gs[0]] + tail;
      if g.round == r {
        assert gs[0].round != r;
      }
    }
  }

  /** Sorting keeps the source order of the games of each round. */
  lemma {:induction false} SortStable(gs: seq<Game>, r: int)
    ensures RoundSlice(SortByRound(gs), r) == RoundSlice(gs, r)
  {
    if gs != [] {
      SortStable(gs[1..], r);
      InsertStable(gs[0], SortByRound(gs[1..]), r);
    }
  }

  /** `getPlayerGames`: the player's own records as history entries, by round. */
  function PlayerGames(key: Option<string>, pairings: seq<PairingRecord>, index: map<string, RawRecord>): seq<Game>
  {
    SortByRound(GamesOf(OwnedBy(key, pairings), index))
  }

  /** One entry per record the player owns and no other, sorted by round, the
      entries of one round in source order. */
  lemma PlayerGamesSpec(key: Option<string>, pairings: seq<PairingRecord>, index: map<string, RawRecord>)
    ensures var gs := PlayerGames(key, pairings, index);
      && |gs| == |OwnedBy(key, pairings)|
      && SortedByRound(gs)
      && multiset(gs) == multiset(GamesOf(OwnedBy(key, pairings), index))
      && forall r :: RoundSlice(gs, r) == RoundSlice(GamesOf(OwnedBy(key, pairings), index), r)
  {
    forall r ensures RoundSlice(PlayerGames(key, pairings, index), r)
      == RoundSlice(GamesOf(OwnedBy(key, pairings), index), r)
    {
      SortStable(GamesOf(OwnedBy(key, pairings), index), r);
    }
  }

  /** Every history entry comes from a record the player owns. */
  lemma PlayerGamesFromOwnRecords(key: Option<string>, pairings: seq<PairingRecord>, index: map<string, RawRecord>)
    ensures forall g :: g in PlayerGames(key, pairings, index) ==>
      exists rec :: rec in pairings && key == Some(rec.player) && g == GameOf(rec, index)
  {
    var owned := OwnedBy(key, pairings);
    var gs := GamesOf(owned, index);
    var sorted := PlayerGames(key, pairings, index);
    assert multiset(sorted) == multiset(gs);
    forall g | g in sorted
      ensures exists rec :: rec in pairings && key == Some(rec.player) && g == GameOf(rec, index)
    {
      assert g in multiset(gs);
      var i :| 0 <= i < |gs| && gs[i] == g;
      OwnedByMember(key, pairings, owned[i]);
    }
  }

  /** An opponent whose record has a blank name is still found: its name is that
      blank text, not the bye label. */
  lemma BlankOpponentNotBye(rec: PairingRecord, index: map<string, RawRecord>)
    requires rec.opponent in index && Field(index[rec.opponent], NameCode) == Some("")
    ensures GameOf(rec, index).opponentName == Some("")
    ensures GameOf(rec, index).opponentId.Some?
  {
  }

  /** `!player['2000'] || player['2000'].trim() === ''` is false. */
  predicate HasName(p: RawRecord) {
    NameCode in p && !IsBlank(p[NameCode])
  }

  /** `parseInt(x, 10) || null`: both `NaN` and `0` become `null`. */
  function RatingOf(f: Option<string>): (r: Option<int>)
    ensures r != Some(0)
    ensures r.Some? <==> ParseField(f).Num? && ParseField(f).value != 0
    ensures r.Some? ==> ParseField(f) == Num(r.value)
  {
    match ParseField(f)
    case Num(n) => if n != 0 then Some(n) else None
    case NaN => None
  }

  /** `x || null` on a text field: missing and empty both become `null`. */
  function TitleOf(f: Option<string>): (t: Option<string>)
    ensures t == None <==> f == None || f == Some("")
    ensures t.Some? ==> t == f
  {
    if f == None || f == Some("") then None else f
  }

  /** The output entry of one named player record. */
  function ToPlayer(p: RawRecord, pairings: seq<PairingRecord>, index: map<string, RawRecord>): (q: Player)
    requires HasName(p)
    ensures q.id == q.startRank == ParseField(Field(p, StartRankCode))
    ensures q.name == p[NameCode] && !IsBlank(q.name)
    ensures q.title != Some("")
    ensures q.rating.national != Some(0) && q.rating.fide != Some(0)
    ensures q.finalRank == ParseField(Field(p, FinalRankCode))
    ensures q.title == TitleOf(Field(p, TitleCode))
    ensures q.club == Field(p, ClubCode) && q.federation == Field(p, FederationCode)
    ensures q.rating == Rating(RatingOf(Field(p, NationalRatingCode)), RatingOf(Field(p, FideRatingCode)))
    ensures q.points == Field(p, PointsCode)
    ensures q.tiebreaks == Tiebreaks(Field(p, BuchholzCode), Field(p, BuchholzCut1Code), Field(p, SonnebornBergerCode))
    ensures q.games == PlayerGames(Field(p, KeyCode), pairings, index)
  {
    var id := ParseField(Field(p, StartRankCode));
    Player(
      id, id,
      ParseField(Field(p, FinalRankCode)),
      p[NameCode],
      TitleOf(Field(p, TitleCode)),
      Field(p, ClubCode),
      Field(p, FederationCode),
      Rating(RatingOf(Field(p, NationalRatingCode)), RatingOf(Field(p, FideRatingCode))),
      Field(p, PointsCode),
      Tiebreaks(Field(p, BuchholzCode), Field(p, BuchholzCut1Code), Field(p, SonnebornBergerCode)),
      PlayerGames(Field(p, KeyCode), pairings, index))
  }

  /** What `players.map(...)` makes of one record before `.filter(Boolean)`: no entry
      (`null`) for an unnamed record, else the player. */
  function EntryOf(p: RawRecord, pairings: seq<PairingRecord>, index: map<string, RawRecord>): seq<Player> {
    if HasName(p) then [ToPlayer(p, pairings, index)] else []
  }

  /** `players.map(...).filter(Boolean)` over a part of the records, opponents
      resolved through `index`. */
  function NamedPlayers(players: seq<RawRecord>, pairings: seq<PairingRecord>, index: map<string, RawRecord>): (r: seq<Player>)
    ensures |r| <= |players|
  {
    if players == [] then []
    else EntryOf(players[0], pairings, index) + NamedPlayers(players[1..], pairings, index)
  }

  /** `transformPlayerList`: opponents are resolved among all player records. */
  function TransformPlayerList(players: seq<RawRecord>, pairings: seq<PairingRecord>): seq<Player>
  {
    NamedPlayers(players, pairings, Index(players))
  }

  /** The list is built record by record: the kept players stay in input order. */
  lemma {:induction false} NamedPlayersAppend(a: seq<RawRecord>, b: seq<RawRecord>,
                                              pairings: seq<PairingRecord>, index: map<string, RawRecord>)
    ensures NamedPlayers(a + b, pairings, index) == NamedPlayers(a, pairings, index) + NamedPlayers(b, pairings, index)
  {
    if a == [] {
      assert a + b == b;
    } else {
      var head := EntryOf(a[0], pairings, index);
      assert (a + b)[0] == a[0];
      assert (a + b)[1..] == a[1..] + b;
      NamedPlayersAppend(a[1..], b, pairings, index);
      var x, y := NamedPlayers(a[1..], pairings, index), NamedPlayers(b, pairings, index);
      assert NamedPlayers(a + b, pairings, index) == head + (x + y);
      assert head + (x + y) == (head + x) + y;
    }
  }

  /** Exactly the named records are kept: each named record gives its entry, an
      unnamed one gives nothing, and every entry comes from a named record. */
  lemma {:induction false} NamedPlayersExact(players: seq<RawRecord>, pairings: seq<PairingRecord>, index: map<string, RawRecord>)
    ensures forall p :: p in players && HasName(p) ==> ToPlayer(p, pairings, index) in NamedPlayers(players, pairings, index)
    ensures forall q :: q in NamedPlayers(players, pairings, index) ==>
      exists p :: p in players && HasName(p) && q == ToPlayer(p, pairings, index)
  {
    if players != [] {
      var rest := players[1..];
      NamedPlayersExact(rest, pairings, index);
      var head := EntryOf(players[0], pairings, index);
      var all := NamedPlayers(players, pairings, index);
      assert all == head + NamedPlayers(rest, pairings, index);
      forall p | p in players && HasName(p) ensures ToPlayer(p, pairings, index) in all {
        if p != players[0] {
          assert p in rest;
        }
      }
      forall q | q in all ensures exists p :: p in players && HasName(p) && q == ToPlayer(p, pairings, index) {
        if q in head {
          assert HasName(players[0]) && q == ToPlayer(players[0], pairings, index);
        } else {
          var p :| p in rest && HasName(p) && q == ToPlayer(p, pairings, index);
          assert p in players;
        }
      }
    }
  }

  /** A record with a missing or blank name produces no entry. */
  lemma UnnamedDropped(p: RawRecord, pairings: seq<PairingRecord>, index: map<string, RawRecord>)
    requires !HasName(p)
    ensures NamedPlayers([p], pairings, index) == []
  {
  }

  /** Every listed player's games are their own records' entries, sorted by round. */
  lemma ListedGamesSorted(players: seq<RawRecord>, pairings: seq<PairingRecord>)
    ensures forall q :: q in TransformPlayerList(players, pairings) ==> SortedByRound(q.games)
  {
    var index := Index(players);
    NamedPlayersExact(players, pairings, index);
    forall q | q in TransformPlayerList(players, pairings) ensures SortedByRound(q.games) {
      var p :| p in players && HasName(p) && q == ToPlayer(p, pairings, index);
      PlayerGamesSpec(Field(p, KeyCode), pairings, index);
    }
  }
}
