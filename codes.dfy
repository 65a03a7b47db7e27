/** Decoding of the Swiss-Chess colour and result codes (`getColor`, `getResult`). */
module Codes {

  datatype Color = White | Black

  /** Colour code of a pairing record seen from the white side. */
  const WhiteCode: string := "4000-1"

  /** Result codes, read from the side that owns the pairing record. */
  const WinCode: string := "4002-3"
  const DrawCode: string := "4002-2"
  const LossCode: string := "4002-1"

  /** Result notation produced by the converter. */
  const WhiteWins: string := "1-0"
  const BlackWins: string := "0-1"
  const Drawn: string := "1/2-1/2"
  const Unplayed: string := "-"

  /** `getColor`: only the white code gives white; every other code, known or not, gives black. */
  function GetColor(code: string): (c: Color)
    ensures c == White <==> code == WhiteCode
  {
    if code == WhiteCode then White else Black
  }

  /** `getResult`: the result code of one side, written from White's point of view. */
  function GetResult(code: string, color: Color): (r: string)
    ensures r in {WhiteWins, BlackWins, Drawn, Unplayed}
    ensures r == Unplayed <==> code != WinCode && code != DrawCode && code != LossCode
    ensures r == Drawn <==> code == DrawCode
    ensures r == WhiteWins <==> (code == WinCode && color == White) || (code == LossCode && color == Black)
    ensures r == BlackWins <==> (code == WinCode && color == Black) || (code == LossCode && color == White)
  {
    var isWhite := color == White;
    if code == WinCode then (if isWhite then WhiteWins else BlackWins)
    else if code == DrawCode then Drawn
    else if code == LossCode then (if isWhite then BlackWins else WhiteWins)
    else Unplayed
  }

  /** The same outcome seen with the colours exchanged. */
  function Mirror(r: string): (m: string)
    ensures r == WhiteWins <==> m == BlackWins
    ensures r == BlackWins <==> m == WhiteWins
    ensures r != WhiteWins && r != BlackWins ==> m == r
  {
    if r == WhiteWins then BlackWins
    else if r == BlackWins then WhiteWins
    else r
  }

  /** The result code the opponent's record carries for the same game. */
  function Opposite(code: string): (o: string)
    ensures o == WinCode <==> code == LossCode
    ensures o == LossCode <==> code == WinCode
    ensures code != WinCode && code != LossCode ==> o == code
  {
    if code == WinCode then LossCode
    else if code == LossCode then WinCode
    else code
  }

  /** The decoding table of `getResult`, entry by entry. */
  lemma ResultTable(unknown: string)
    requires unknown != WinCode && unknown != DrawCode && unknown != LossCode
    ensures GetResult(WinCode, White) == WhiteWins && GetResult(WinCode, Black) == BlackWins
    ensures GetResult(LossCode, White) == BlackWins && GetResult(LossCode, Black) == WhiteWins
    ensures GetResult(DrawCode, White) == Drawn && GetResult(DrawCode, Black) == Drawn
    ensures GetResult(unknown, White) == Unplayed && GetResult(unknown, Black) == Unplayed
  {
  }

  /** For every code, the white and the black readings are each other's mirror. */
  lemma ResultMirror(code: string)
    ensures GetResult(code, Black) == Mirror(GetResult(code, White))
    ensures GetResult(code, White) == Mirror(GetResult(code, Black))
  {
  }

  /** The two records of one game, each decoded from its own side, name the same outcome. */
  lemma SidesAgree(code: string)
    ensures GetResult(Opposite(code), Black) == GetResult(code, White)
  {
  }
}
