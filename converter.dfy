/** `convertSwtToJson`: the whole conversion of a decoded Swiss-Chess record set into
    tournament info, player list and round pairings. */
module Converter {
  import opened Wrappers
  import opened Codes
  import opened Records
  import opened PlayerList
  import opened RoundPairings

  /** The decoded record set; a section is `None` when the reader did not supply it. */
  datatype RawRecordSet = RawRecordSet(
    general: Option<RawRecord>,
    players: Option<seq<RawRecord>>,
    pairings: Option<seq<PairingRecord>>)

  /** Field codes of the general-info record. */
  const TournamentNameCode: string := "65"
  const LocationCode: string := "66"
  const ArbiterCode: string := "67"
  const BaseTimeCode: string := "72"
  const IncrementCode: string := "73"
  const OrganizerCode: string := "88"
  const StartDateCode: string := "89"
  const EndDateCode: string := "91"
  const RoundCountCode: string := "1"
  const PlayerCountCode: string := "4"

  /** Start and end dates, carried as the text of their fields (see README). */
  datatype Dates = Dates(start: Option<string>, end: Option<string>)

  datatype TournamentInfo = TournamentInfo(
    name: Option<string>,
    location: Option<string>,
    organizer: Option<string>,
    arbiter: Option<string>,
    dates: Dates,
    timeControl: string,
    totalRounds: Option<string>,
    playerCount: Option<string>)

  datatype TournamentModel = TournamentModel(
    tournamentInfo: TournamentInfo,
    playerList: seq<Player>,
    roundPairings: seq<RoundPairing>)

  /** A value placed in a template literal: `undefined` is written out as such. */
  function TemplateText(f: Option<string>): (t: string)
    ensures f.Some? ==> t == f.value
    ensures f.None? ==> t == "undefined"
  {
    match f
    case Some(s) => s
    case None => "undefined"
  }

  /** `transformGeneralInfo`: each output field is the general record's field under
      its code, a missing one staying absent; the time control is
      `<base> + <increment>`. */
  function TransformGeneralInfo(general: RawRecord): (info: TournamentInfo)
    ensures info.name == Field(general, TournamentNameCode)
    ensures info.location == Field(general, LocationCode)
    ensures info.organizer == Field(general, OrganizerCode)
    ensures info.arbiter == Field(general, ArbiterCode)
    ensures info.dates == Dates(Field(general, StartDateCode), Field(general, EndDateCode))
    ensures info.timeControl == TemplateText(Field(general, BaseTimeCode)) + " + " + TemplateText(Field(general, IncrementCode))
    ensures info.totalRounds == Field(general, RoundCountCode)
    ensures info.playerCount == Field(general, PlayerCountCode)
  {
    TournamentInfo(
      Field(general, TournamentNameCode),
      Field(general, LocationCode),
      Field(general, OrganizerCode),
      Field(general, ArbiterCode),
      Dates(Field(general, StartDateCode), Field(general, EndDateCode)),
      TemplateText(Field(general, BaseTimeCode)) + " + " + TemplateText(Field(general, IncrementCode)),
      Field(general, RoundCountCode),
      Field(general, PlayerCountCode))
  }

  /** The time control splits back into its base time and increment. */
  lemma TimeControlParts(general: RawRecord)
    ensures var tc := TransformGeneralInfo(general).timeControl;
      var base := TemplateText(Field(general, BaseTimeCode));
      && |tc| == |base| + 3 + |TemplateText(Field(general, IncrementCode))|
      && tc[..|base|] == base
      && tc[|base|..|base| + 3] == " + "
      && tc[|base| + 3..] == TemplateText(Field(general, IncrementCode))
  {
  }

  /** The three sections are all present (the converter reads them unchecked). */
  predicate Complete(data: RawRecordSet) {
    data.general.Some? && data.players.Some? && data.pairings.Some?
  }

  /** What `convertSwtToJson` returns for a complete record set. */
  predicate Converted(data: RawRecordSet, model: TournamentModel)
    requires Complete(data)
  {
    && model.tournamentInfo == TransformGeneralInfo(data.general.value)
    && model.playerList == TransformPlayerList(data.players.value, data.pairings.value)
    && RoundsSpec(model.roundPairings, data.pairings.value, Index(data.players.value))
  }

  method ConvertSwtToJson(data: RawRecordSet) returns (model: TournamentModel)
    requires Complete(data)
    ensures Converted(data, model)
  {
    var tournamentInfo := TransformGeneralInfo(data.general.value);
    var playerList := TransformPlayerList(data.players.value, data.pairings.value);
    var roundPairings := TransformRoundPairings(data.pairings.value, data.players.value);
    model := TournamentModel(tournamentInfo, playerList, roundPairings);
  }

  /** Converting the same record set twice gives equal models. */
  lemma ConvertDeterministic(data: RawRecordSet, m1: TournamentModel, m2: TournamentModel)
    requires Complete(data) && Converted(data, m1) && Converted(data, m2)
    ensures m1 == m2
  {
    RoundsSpecUnique(m1.roundPairings, m2.roundPairings, data.pairings.value, Index(data.players.value));
  }

  /** A general record with round count 9 and player count 20 reports both. */
  lemma GeneralInfoScenario(general: RawRecord)
    requires Field(general, RoundCountCode) == Some("9") && Field(general, PlayerCountCode) == Some("20")
    requires Field(general, BaseTimeCode) == Some("90") && Field(general, IncrementCode) == None
    ensures TransformGeneralInfo(general).totalRounds == Some("9")
    ensures TransformGeneralInfo(general).playerCount == Some("20")
    ensures TransformGeneralInfo(general).timeControl == "90 + undefined"
  {
  }
}
