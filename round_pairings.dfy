/** The round pairings of the converted tournament (`transformRoundPairings`): the
    pairing records are walked once, only the white side of each game seeds a board,
    and the boards are grouped by round and numbered in the order they are emitted. */
module RoundPairings {
  import opened Wrappers
  import opened Codes
  import opened Records
  import opened PlayerList

  /** `{ id: p['2021'], name: p['2000'] }`: the id is the field's text, not parsed. */
  datatype PlayerRef = PlayerRef(id: Option<string>, name: Option<string>)

  /** A game of a round before it gets its board number. */
  datatype Pairing = Pairing(white: PlayerRef, black: PlayerRef, result: string)

  datatype Board = Board(board: int, white: PlayerRef, black: PlayerRef, result: string)

  datatype RoundPairing = RoundPairing(round: int, pairings: seq<Board>)

  function RefOf(p: RawRecord): PlayerRef {
    PlayerRef(Field(p, StartRankCode), Field(p, NameCode))
  }

  /** The record is a white-side record of round `r` whose two keys are both known. */
  predicate Seats(rec: PairingRecord, index: map<string, RawRecord>, r: int) {
    rec.color == WhiteCode && rec.round == r && rec.player in index && rec.opponent in index
  }

  /** The game a white-side record describes, its result read from White's side. */
  function PairingOf(rec: PairingRecord, index: map<string, RawRecord>): Pairing
    requires rec.player in index && rec.opponent in index
  {
    Pairing(RefOf(index[rec.player]), RefOf(index[rec.opponent]), GetResult(rec.result, White))
  }

  /** The games of round `r`, in the order of the records that seat them. */
  function Seated(recs: seq<PairingRecord>, index: map<string, RawRecord>, r: int): (ps: seq<Pairing>)
    ensures |ps| <= |recs|
  {
    if recs == [] then []
    else
      var last := recs[|recs| - 1];
      Seated(recs[..|recs| - 1], index, r)
      + (if Seats(last, index, r) then [PairingOf(last, index)] else [])
  }

  /** The rounds that have at least one white-side record. */
  function WhiteRounds(recs: seq<PairingRecord>): set<int>
  {
    if recs == [] then {}
    else
      var last := recs[|recs| - 1];
      WhiteRounds(recs[..|recs| - 1]) + (if last.color == WhiteCode then {last.round} else {})
  }

  /** A round is listed exactly when some record of that round is a white-side record. */
  lemma {:induction false} WhiteRoundsMeaning(recs: seq<PairingRecord>, r: int)
    ensures r in WhiteRounds(recs) <==> exists i :: 0 <= i < |recs| && recs[i].color == WhiteCode && recs[i].round == r
  {
    if recs != [] {
      var init := recs[..|recs| - 1];
      WhiteRoundsMeaning(init, r);
      assert forall i :: 0 <= i < |init| ==> init[i] == recs[i];
    }
  }

  /** A round without any white-side record seats no game. */
  lemma {:induction false} NoWhiteRecordNoSeat(recs: seq<PairingRecord>, index: map<string, RawRecord>, r: int)
    requires r !in WhiteRounds(recs)
    ensures Seated(recs, index, r) == []
  {
    if recs != [] {
      NoWhiteRecordNoSeat(recs[..|recs| - 1], index, r);
    }
  }

  /** Board numbers 1..N, in order. */
  function Numbered(ps: seq<Pairing>): (bs: seq<Board>)
    ensures |bs| == |ps|
  {
    seq(|ps|, j requires 0 <= j < |ps| => Board(j + 1, ps[j].white, ps[j].black, ps[j].result))
  }

  predicate Ascending(rs: seq<RoundPairing>) {
    forall i, j :: 0 <= i < j < |rs| ==> rs[i].round < rs[j].round
  }

  function RoundSet(rs: seq<RoundPairing>): set<int> {
    set i | 0 <= i < |rs| :: rs[i].round
  }

  /** What `transformRoundPairings` returns: one entry per round that has a
      white-side record, strictly ascending, each holding the numbered games the
      round's seating records describe (possibly none). */
  predicate RoundsSpec(result: seq<RoundPairing>, recs: seq<PairingRecord>, index: map<string, RawRecord>) {
    && Ascending(result)
    && RoundSet(result) == WhiteRounds(recs)
    && forall i :: 0 <= i < |result| ==> result[i].pairings == Numbered(Seated(recs, index, result[i].round))
  }

  /** Appending one board to a round's list numbers it after the boards already there. */
  lemma NumberedSnoc(ps: seq<Pairing>, p: Pairing)
    ensures Numbered(ps + [p]) == Numbered(ps) + [Board(|ps| + 1, p.white, p.black, p.result)]
  {
  }

  /** The rounds dictionary after the records `recs` have been visited. */
  ghost predicate RoundsBuilt(rounds: map<int, seq<Board>>, recs: seq<PairingRecord>, index: map<string, RawRecord>) {
    && rounds.Keys == WhiteRounds(recs)
    && forall r :: r in rounds ==> rounds[r] == Numbered(Seated(recs, index, r))
  }

  /** `if (!rounds[roundNum]) rounds[roundNum] = { round: roundNum, pairings: [] }`. */
  ghost function Opened(rounds: map<int, seq<Board>>, r: int): map<int, seq<Board>> {
    if r in rounds then rounds else rounds[r := []]
  }

  /** The dictionary after one record is visited: a black-side record changes
      nothing; a white-side record opens its round if needed and, when both keys are
      known, appends one board numbered after the boards already there. */
  ghost function Visited(rounds: map<int, seq<Board>>, rec: PairingRecord, index: map<string, RawRecord>): map<int, seq<Board>> {
    if rec.color != WhiteCode then rounds
    else
      var open := Opened(rounds, rec.round);
      if rec.player in index && rec.opponent in index then
        var boards := open[rec.round];
        open[rec.round := boards + [Board(|boards| + 1, RefOf(index[rec.player]), RefOf(index[rec.opponent]), GetResult(rec.result, White))]]
      else open
  }

  lemma OpenedMeaning(rounds: map<int, seq<Board>>, r: int)
    ensures r in rounds ==> Opened(rounds, r) == rounds
    ensures r !in rounds ==> Opened(rounds, r) == rounds[r := []]
  {
  }

  lemma VisitedWhite(rounds: map<int, seq<Board>>, rec: PairingRecord, index: map<string, RawRecord>)
    requires rec.color == WhiteCode
    ensures rec.player in index && rec.opponent in index ==>
      var boards := Opened(rounds, rec.round)[rec.round];
      Visited(rounds, rec, index) == Opened(rounds, rec.round)[rec.round := boards + [Board(|boards| + 1, RefOf(index[rec.player]), RefOf(index[rec.opponent]), GetResult(rec.result, White))]]
    ensures !(rec.player in index && rec.opponent in index) ==> Visited(rounds, rec, index) == Opened(rounds, rec.round)
  {
  }

  /** One visit keeps the dictionary matched to the records seen so far. */
  lemma VisitKeepsBuilt(before: map<int, seq<Board>>, done: seq<PairingRecord>, rec: PairingRecord, index: map<string, RawRecord>)
    requires RoundsBuilt(before, done, index)
    ensures RoundsBuilt(Visited(before, rec, index), done + [rec], index)
  {
    var after := Visited(before, rec, index);
    WhiteRoundsSnoc(done, rec);
    forall r | r in after ensures after[r] == Numbered(Seated(done + [rec], index, r)) {
      VisitKeepsRound(before, done, rec, index, r);
    }
  }

  /** The same, for one round of the dictionary. */
  lemma VisitKeepsRound(before: map<int, seq<Board>>, done: seq<PairingRecord>, rec: PairingRecord, index: map<string, RawRecord>, r: int)
    requires RoundsBuilt(before, done, index)
    requires r in Visited(before, rec, index)
    ensures Visited(before, rec, index)[r] == Numbered(Seated(done + [rec], index, r))
  {
    RecordSeatsOnce(done, rec, index, r);
    if r == rec.round && rec.color == WhiteCode {
      if rec.round !in before {
        NoWhiteRecordNoSeat(done, index, r);
      }
      if Seats(rec, index, r) {
        NumberedSnoc(Seated(done, index, r), PairingOf(rec, index));
      }
    }
  }

  /** The dictionary `transformRoundPairings` holds after visiting `recs` in order. */
  ghost function Built(recs: seq<PairingRecord>, index: map<string, RawRecord>): map<int, seq<Board>> {
    if recs == [] then map[]
    else Visited(Built(recs[..|recs| - 1], index), recs[|recs| - 1], index)
  }

  /** The dictionary built from `recs` holds, per listed round, exactly the numbered
      games of that round's seating records. */
  lemma {:induction false} BuiltMeaning(recs: seq<PairingRecord>, index: map<string, RawRecord>)
    ensures RoundsBuilt(Built(recs, index), recs, index)
  {
    if recs != [] {
      var init := recs[..|recs| - 1];
      BuiltMeaning(init, index);
      VisitKeepsBuilt(Built(init, index), init, recs[|recs| - 1], index);
      assert init + [recs[|recs| - 1]] == recs;
    }
  }

  /** `transformRoundPairings(allPairings, players)`. */
  method TransformRoundPairings(pairings: seq<PairingRecord>, players: seq<RawRecord>)
    returns (result: seq<RoundPairing>)
    ensures RoundsSpec(result, pairings, Index(players))
  {
    var playerMap := Index(players);
    var rounds := GroupByRound(pairings, playerMap);
    BuiltMeaning(pairings, playerMap);
    result := SortRounds(rounds);
    SortedBuilt(rounds, result, pairings, playerMap);
  }

  /** The loop of `transformRoundPairings` that fills the `rounds` dictionary. */
  method GroupByRound(pairings: seq<PairingRecord>, playerMap: map<string, RawRecord>)
    returns (rounds: map<int, seq<Board>>)
    ensures rounds == Built(pairings, playerMap)
  {
    rounds := map[];
    for i := 0 to |pairings|
      invariant rounds == Built(pairings[..i], playerMap)
    {
      var pairing := pairings[i];
      ghost var before := rounds;
      if pairing.color == WhiteCode {
        var roundNum := pairing.round;
        if roundNum !in rounds {
          rounds := rounds[roundNum := []];
        }
        OpenedMeaning(before, roundNum);
        VisitedWhite(before, pairing, playerMap);
        if pairing.player in playerMap && pairing.opponent in playerMap {
          var whitePlayer := RefOf(playerMap[pairing.player]);
          var blackPlayer := RefOf(playerMap[pairing.opponent]);
          var boards := rounds[roundNum];
          rounds := rounds[roundNum := boards + [Board(|boards| + 1, whitePlayer, blackPlayer, GetResult(pairing.result, White))]];
        }
      }
      assert rounds == Visited(before, pairing, playerMap);
      assert pairings[..i + 1][..i] == pairings[..i];
    }
    assert pairings[..|pairings|] == pairings;
  }

  /** Listing a built dictionary in ascending round order meets the specification. */
  lemma SortedBuilt(rounds: map<int, seq<Board>>, result: seq<RoundPairing>, recs: seq<PairingRecord>, index: map<string, RawRecord>)
    requires RoundsBuilt(rounds, recs, index)
    requires Ascending(result) && RoundSet(result) == rounds.Keys
    requires forall i :: 0 <= i < |result| ==> result[i].round in rounds && result[i].pairings == rounds[result[i].round]
    ensures RoundsSpec(result, recs, index)
  {
  }

  predicate IsLeast(m: int, s: set<int>) {
    m in s && forall k :: k in s ==> m <= k
  }

  /** Every non-empty set of rounds has a least element. */
  lemma {:induction false} LeastOf(s: set<int>) returns (m: int)
    requires s != {}
    ensures IsLeast(m, s)
  {
    assert exists x :: x in s by {
      if forall x :: x !in s { assert false; }
    }
    var x :| x in s;
    if s == {x} {
      m := x;
    } else {
      var smaller := s - {x};
      assert smaller != {} by {
        if smaller == {} { assert false; }
      }
      var below := LeastOf(smaller);
      m := if x < below then x else below;
      forall k | k in s ensures m <= k {
        if k != x { assert k in smaller; }
      }
    }
  }

  /** The rounds `result` holds come from the dictionary, in ascending order, and
      all of them are below every round still `rest` to be taken. */
  ghost predicate Extracted(result: seq<RoundPairing>, rest: set<int>, rounds: map<int, seq<Board>>) {
    && rest <= rounds.Keys
    && Ascending(result)
    && RoundSet(result) + rest == rounds.Keys
    && (forall i, k :: 0 <= i < |result| && k in rest ==> result[i].round < k)
    && forall i :: 0 <= i < |result| ==> result[i].round in rounds && result[i].pairings == rounds[result[i].round]
  }

  /** Taking the least remaining round keeps the extraction ordered. */
  lemma ExtractLeast(result: seq<RoundPairing>, rest: set<int>, rounds: map<int, seq<Board>>, m: int)
    requires Extracted(result, rest, rounds)
    requires IsLeast(m, rest)
    ensures Extracted(result + [RoundPairing(m, rounds[m])], rest - {m}, rounds)
  {
    var after := result + [RoundPairing(m, rounds[m])];
    RoundSetSnoc(result, RoundPairing(m, rounds[m]));
    AscendingSnoc(result, RoundPairing(m, rounds[m]));
    forall i, k | 0 <= i < |after| && k in rest - {m} ensures after[i].round < k {
      if i < |result| {
        assert after[i] == result[i];
      }
    }
  }

  lemma RoundSetSnoc(rs: seq<RoundPairing>, x: RoundPairing)
    ensures RoundSet(rs + [x]) == RoundSet(rs) + {x.round}
  {
    var after := rs + [x];
    assert forall i :: 0 <= i < |rs| ==> after[i] == rs[i];
    assert after[|rs|] == x;
  }

  lemma AscendingSnoc(rs: seq<RoundPairing>, x: RoundPairing)
    requires Ascending(rs)
    requires forall i :: 0 <= i < |rs| ==> rs[i].round < x.round
    ensures Ascending(rs + [x])
  {
    var after := rs + [x];
    forall i, j | 0 <= i < j < |after| ensures after[i].round < after[j].round {
      assert after[i] == rs[i];
      if j < |rs| {
        assert after[j] == rs[j];
      }
    }
  }

  /** `Object.values(rounds).sort((a, b) => a.round - b.round)`. */
  method SortRounds(rounds: map<int, seq<Board>>) returns (result: seq<RoundPairing>)
    ensures Ascending(result)
    ensures RoundSet(result) == rounds.Keys
    ensures forall i :: 0 <= i < |result| ==> result[i].round in rounds && result[i].pairings == rounds[result[i].round]
  {
    var rest := rounds.Keys;
    result := [];
    while rest != {}
      invariant Extracted(result, rest, rounds)
      decreases rest
    {
      // A least remaining round exists, so the choice below can be made.
      ghost var least := LeastOf(rest);
      var m :| IsLeast(m, rest);
      ExtractLeast(result, rest, rounds, m);
      result := result + [RoundPairing(m, rounds[m])];
      rest := rest - {m};
    }
  }

  /** The boards of every round are numbered 1..N without gaps or repeats. */
  lemma BoardsNumbered(result: seq<RoundPairing>, recs: seq<PairingRecord>, index: map<string, RawRecord>)
    requires RoundsSpec(result, recs, index)
    ensures forall i, j :: 0 <= i < |result| && 0 <= j < |result[i].pairings| ==> result[i].pairings[j].board == j + 1
  {
  }

  /** Every game of a round comes from one seating record, and each seating record
      gives one game, in record order. */
  lemma {:induction false} SeatedExact(recs: seq<PairingRecord>, index: map<string, RawRecord>, r: int)
    ensures forall p :: p in Seated(recs, index, r) ==>
      exists rec :: rec in recs && Seats(rec, index, r) && p == PairingOf(rec, index)
    ensures forall rec :: rec in recs && Seats(rec, index, r) ==> PairingOf(rec, index) in Seated(recs, index, r)
  {
    if recs != [] {
      var init := recs[..|recs| - 1];
      SeatedExact(init, index, r);
      assert recs == init + [recs[|recs| - 1]];
    }
  }

  /** A record adds a board to its own round only, and only as a white-side record
      with two known keys: no record yields two boards. */
  lemma RecordSeatsOnce(recs: seq<PairingRecord>, rec: PairingRecord, index: map<string, RawRecord>, r: int)
    ensures Seated(recs + [rec], index, r) ==
      if Seats(rec, index, r) then Seated(recs, index, r) + [PairingOf(rec, index)] else Seated(recs, index, r)
    ensures r != rec.round || rec.color != WhiteCode ==> Seated(recs + [rec], index, r) == Seated(recs, index, r)
  {
    assert (recs + [rec])[..|recs|] == recs;
  }

  lemma WhiteRoundsSnoc(recs: seq<PairingRecord>, rec: PairingRecord)
    ensures WhiteRounds(recs + [rec]) == WhiteRounds(recs) + (if rec.color == WhiteCode then {rec.round} else {})
  {
    assert (recs + [rec])[..|recs|] == recs;
  }

  /** A player record with a blank name is still in the lookup map, so a game against
      it gets a board whose black name is that blank text. */
  lemma BlankNameStillSeated(recs: seq<PairingRecord>, rec: PairingRecord, index: map<string, RawRecord>)
    requires rec in recs && rec.color == WhiteCode && rec.player in index && rec.opponent in index
    requires Field(index[rec.opponent], NameCode) == Some("")
    ensures exists p :: p in Seated(recs, index, rec.round) && p.black.name == Some("")
  {
    SeatedExact(recs, index, rec.round);
    assert PairingOf(rec, index) in Seated(recs, index, rec.round);
  }

  /** A round none of whose white-side records has two known keys seats no game. */
  lemma {:induction false} SeatedNone(recs: seq<PairingRecord>, index: map<string, RawRecord>, r: int)
    requires forall rec :: rec in recs ==> !Seats(rec, index, r)
    ensures Seated(recs, index, r) == []
  {
    if recs != [] {
      SeatedNone(recs[..|recs| - 1], index, r);
    }
  }

  /** The round entry is created before the keys are looked up, so a round whose
      boards were all dropped is still listed, with no boards. */
  lemma DroppedRoundListed(result: seq<RoundPairing>, recs: seq<PairingRecord>, index: map<string, RawRecord>, rec: PairingRecord)
    requires RoundsSpec(result, recs, index)
    requires rec in recs && rec.color == WhiteCode
    requires forall other :: other in recs ==> !Seats(other, index, rec.round)
    ensures exists i :: 0 <= i < |result| && result[i].round == rec.round && result[i].pairings == []
  {
    var k :| 0 <= k < |recs| && recs[k] == rec;
    WhiteRoundsMeaning(recs, rec.round);
    assert rec.round in RoundSet(result);
    var i :| 0 <= i < |result| && result[i].round == rec.round;
    SeatedNone(recs, index, rec.round);
  }

  lemma RoundSetHead(rs: seq<RoundPairing>)
    ensures rs != [] ==> rs[0].round in RoundSet(rs)
  {
  }

  lemma {:induction false} RoundSetTail(rs: seq<RoundPairing>)
    requires rs != [] && Ascending(rs)
    ensures RoundSet(rs[1..]) == RoundSet(rs) - {rs[0].round}
  {
    forall r | r in RoundSet(rs) - {rs[0].round} ensures r in RoundSet(rs[1..]) {
      var i :| 0 <= i < |rs| && rs[i].round == r;
      assert rs[1..][i - 1] == rs[i];
    }
  }

  /** The result is determined by its specification: two round lists that meet it
      for the same input are equal, so converting the same records twice gives the
      same round pairings. */
  lemma {:induction false} RoundsSpecUnique(a: seq<RoundPairing>, b: seq<RoundPairing>,
                                            recs: seq<PairingRecord>, index: map<string, RawRecord>)
    requires RoundsSpec(a, recs, index) && RoundsSpec(b, recs, index)
    ensures a == b
  {
    SameRoundsEqual(a, b);
  }

  lemma {:induction false} SameRoundsEqual(a: seq<RoundPairing>, b: seq<RoundPairing>)
    requires Ascending(a) && Ascending(b) && RoundSet(a) == RoundSet(b)
    requires forall i, j :: 0 <= i < |a| && 0 <= j < |b| && a[i].round == b[j].round ==> a[i].pairings == b[j].pairings
    ensures a == b
  {
    if a == [] {
      RoundSetHead(b);
    } else {
      assert a[0].round in RoundSet(b);
      var j :| 0 <= j < |b| && b[j].round == a[0].round;
      assert b[0].round in RoundSet(a);
      var i :| 0 <= i < |a| && a[i].round == b[0].round;
      assert a[0] == b[0];
      RoundSetTail(a);
      RoundSetTail(b);
      AgreeTails(a, b);
      SameRoundsEqual(a[1..], b[1..]);
      assert a == [a[0]] + a[1..] && b == [b[0]] + b[1..];
    }
  }

  lemma AgreeTails(a: seq<RoundPairing>, b: seq<RoundPairing>)
    requires a != [] && b != [] && Ascending(a) && Ascending(b)
    requires forall i, j :: 0 <= i < |a| && 0 <= j < |b| && a[i].round == b[j].round ==> a[i].pairings == b[j].pairings
    ensures Ascending(a[1..]) && Ascending(b[1..])
    ensures forall i, j :: 0 <= i < |a[1..]| && 0 <= j < |b[1..]| && a[1..][i].round == b[1..][j].round ==> a[1..][i].pairings == b[1..][j].pairings
  {
    forall i, j | 0 <= i < |a[1..]| && 0 <= j < |b[1..]| && a[1..][i].round == b[1..][j].round
      ensures a[1..][i].pairings == b[1..][j].pairings
    {
      assert a[1..][i] == a[i + 1] && b[1..][j] == b[j + 1];
    }
  }

  /** A board's result is the white player's own history entry for that record, and
      the black player's entry for the opposite record of the same game agrees. */
  lemma BoardMatchesHistory(rec: PairingRecord, partner: PairingRecord, index: map<string, RawRecord>)
    requires rec.color == WhiteCode && rec.player in index && rec.opponent in index
    requires partner.color != WhiteCode && partner.result == Opposite(rec.result)
    ensures PairingOf(rec, index).result == GameOf(rec, index).result
    ensures PairingOf(rec, index).result == GameOf(partner, index).result
  {
    SidesAgree(rec.result);
  }

  /** Two complementary records of one game in round 3, "a" with White and a win,
      "b" with Black and a loss: the round list is exactly round 3 with one board,
      "a" against "b", result 1-0. */
  lemma {:induction false} OneGameOneBoard(pa: RawRecord, pb: RawRecord, blackCode: string, result: seq<RoundPairing>)
    requires Field(pa, KeyCode) == Some("a") && Field(pb, KeyCode) == Some("b")
    requires blackCode != WhiteCode
    requires RoundsSpec(result,
      [PairingRecord("a", 3, WhiteCode, "b", WinCode), PairingRecord("b", 3, blackCode, "a", LossCode)],
      Index([pa, pb]))
    ensures result == [RoundPairing(3, [Board(1, RefOf(pa), RefOf(pb), WhiteWins)])]
  {
    var recs := [PairingRecord("a", 3, WhiteCode, "b", WinCode), PairingRecord("b", 3, blackCode, "a", LossCode)];
    var index := Index([pa, pb]);
    assert [pa, pb][..1] == [pa] && [pa][..0] == [];
    assert Index([pa]) == map["a" := pa];
    assert index == map["a" := pa, "b" := pb];
    assert recs[..1] == [recs[0]] && [recs[0]][..0] == [];
    assert WhiteRounds([recs[0]]) == {3};
    assert Seated(recs, index, 3) == [PairingOf(recs[0], index)];
    var expected := [RoundPairing(3, [Board(1, RefOf(pa), RefOf(pb), WhiteWins)])];
    assert WhiteRounds(recs) == {3};
    assert RoundSet(expected) == {3} by {
      assert expected[0].round in RoundSet(expected);
    }
    SameRoundsEqual(result, expected);
  }
}
