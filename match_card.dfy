/** The match card (src/components/features/matches/MatchCard.tsx): the flag
    picture of a team, the card's own lock rule, which control the card
    offers, and what pressing "Save Tip" does with the two score inputs. */
module MatchCard {
  import opened Wrappers
  import opened JsValues
  import opened AppTypes

  /** Lines 21-24: the teams that have a flag. */
  const CodeMap: map<string, string> := map[
    "Česko" := "cz", "USA" := "us", "Kanada" := "ca", "Švédsko" := "se",
    "Finsko" := "fi", "Slovensko" := "sk", "Německo" := "de", "Švýcarsko" := "ch"
  ]

  const FallbackCode: string := "xx"
  const FlagBase: string := "https://flagcdn.com/w80/"
  const FlagSuffix: string := ".png"

  /** Line 25, `codeMap[teamName] || 'xx'`. */
  function FlagCode(team: string): (code: string)
    ensures team in CodeMap ==> code == CodeMap[team]
    ensures team !in CodeMap ==> code == FallbackCode
    ensures |code| == 2
  {
    if team in CodeMap && CodeMap[team] != "" then CodeMap[team] else FallbackCode
  }

  /** Line 26: the flag picture of a team, always a two-letter code between
      the flag service's base address and `.png`. */
  function FlagUrl(team: string): (url: string)
    ensures |url| == |FlagBase| + 2 + |FlagSuffix|
    ensures url[..|FlagBase|] == FlagBase
    ensures url[|FlagBase|..|FlagBase| + 2] == FlagCode(team)
    ensures url[|FlagBase| + 2..] == FlagSuffix
  {
    FlagBase + FlagCode(team) + FlagSuffix
  }

  /** Teams with a flag get different pictures from each other and from the
      placeholder shared by every other name. */
  lemma FlagUrlsTellTeamsApart(a: string, b: string)
    requires a in CodeMap && a != b
    ensures FlagUrl(a) != FlagUrl(b)
  {
    var n := |FlagBase|;
    assert FlagUrl(a)[n..n + 2] == FlagCode(a);
    assert FlagUrl(b)[n..n + 2] == FlagCode(b);
  }

  /** The eight listed names and nothing else have a real flag. */
  lemma OnlyListedTeamsHaveFlags(team: string)
    ensures FlagCode(team) != FallbackCode <==>
      team in {"Česko", "USA", "Kanada", "Švédsko", "Finsko", "Slovensko", "Německo", "Švýcarsko"}
  {
  }

  /** Lines 38-40: the card is locked while the match is live and once it is
      finished. */
  function CardLocked(status: string): (locked: bool)
    ensures locked <==> status in {"live", "finished"}
  {
    var isLive := status == "live";
    var isFinished := status == "finished";
    isLive || isFinished
  }

  /** The button at the bottom of the card (lines 148-171). */
  datatype Control = NoControl | SaveTip | EditPrediction | MakePrediction

  function ActionControl(status: string, editMode: bool, existing: Option<Prediction>): (c: Control)
    ensures c == NoControl <==> CardLocked(status)
    ensures c == SaveTip <==> !CardLocked(status) && editMode
    ensures c == EditPrediction <==> !CardLocked(status) && !editMode && existing.Some?
    ensures c == MakePrediction <==> !CardLocked(status) && !editMode && existing.None?
  {
    if CardLocked(status) then NoControl
    else if editMode then SaveTip
    else if existing.Some? then EditPrediction
    else MakePrediction
  }

  /** Lines 33-34: the text a score input starts with. */
  function InitialInput(score: Option<nat>): (text: DigitString)
    ensures score.None? <==> text == ""
  {
    match score
    case Some(n) => DecimalString(n)
    case None => ""
  }

  /** The store call "Save Tip" makes. */
  datatype SaveAction =
    | NoOp
    | UpdateExisting(predictionId: string, homeScore: nat, awayScore: nat)
    | CreateNew(matchId: string, userId: string, homeScore: nat, awayScore: nat)

  /** Lines 50-61. The inputs hold decimal digits; the user id is absent when
      nobody is signed in. */
  function HandleSave(homeInput: DigitString, awayInput: DigitString, userId: Option<string>,
                      existing: Option<Prediction>, matchId: string): (action: SaveAction)
    ensures action == NoOp <==> homeInput == "" || awayInput == "" || userId.None? || userId.value == ""
    ensures action.UpdateExisting? <==> action != NoOp && existing.Some?
    ensures action.UpdateExisting? ==> action.predictionId == existing.value.id
    ensures action.CreateNew? ==> action.matchId == matchId && Some(action.userId) == userId
    ensures !action.NoOp? ==> action.homeScore == ParseDecimal(homeInput) && action.awayScore == ParseDecimal(awayInput)
  {
    if homeInput == "" || awayInput == "" || userId.None? || userId.value == "" then NoOp
    else
      var scoreHome := ParseDecimal(homeInput);
      var scoreAway := ParseDecimal(awayInput);
      match existing
      case Some(p) => UpdateExisting(p.id, scoreHome, scoreAway)
      case None => CreateNew(matchId, userId.value, scoreHome, scoreAway)
  }

  /** Saving the inputs as they were first filled from a prediction, by a
      signed-in user, writes that prediction back unchanged. */
  lemma SaveUnchangedRewritesPrediction(p: Prediction, userId: string, matchId: string)
    requires userId != ""
    ensures HandleSave(InitialInput(Some(p.homeScore)), InitialInput(Some(p.awayScore)),
                       Some(userId), Some(p), matchId)
            == UpdateExisting(p.id, p.homeScore, p.awayScore)
  {
    ParseDecimalString(p.homeScore);
    ParseDecimalString(p.awayScore);
  }

  /** A first save by a signed-in user creates a prediction for this match
      holding the typed scores. */
  lemma FirstSaveCreates(home: nat, away: nat, userId: string, matchId: string)
    requires userId != ""
    ensures HandleSave(DecimalString(home), DecimalString(away), Some(userId), None, matchId)
            == CreateNew(matchId, userId, home, away)
  {
    ParseDecimalString(home);
    ParseDecimalString(away);
  }
}
