/** Reading a yes/no decision out of whatever JSON a human replied with. */
module DecisionPayload {
  import opened JsText
  import opened JsonValues

  datatype Choice = Yes | No

  // property names and words, in code units
  const CHOICE: Text := [0x63, 0x68, 0x6F, 0x69, 0x63, 0x65]
  const APPROVED: Text := [0x61, 0x70, 0x70, 0x72, 0x6F, 0x76, 0x65, 0x64]
  const APPROVE: Text := [0x61, 0x70, 0x70, 0x72, 0x6F, 0x76, 0x65]
  const DECISION: Text := [0x64, 0x65, 0x63, 0x69, 0x73, 0x69, 0x6F, 0x6E]
  const RATIONALE: Text := [0x72, 0x61, 0x74, 0x69, 0x6F, 0x6E, 0x61, 0x6C, 0x65]
  const REASON: Text := [0x72, 0x65, 0x61, 0x73, 0x6F, 0x6E]
  const NOTE: Text := [0x6E, 0x6F, 0x74, 0x65]
  const NOTES: Text := [0x6E, 0x6F, 0x74, 0x65, 0x73]
  const REJECT: Text := [0x72, 0x65, 0x6A, 0x65, 0x63, 0x74]
  const REJECTED: Text := [0x72, 0x65, 0x6A, 0x65, 0x63, 0x74, 0x65, 0x64]
  const YES: Text := [0x79, 0x65, 0x73]
  const NO: Text := [0x6E, 0x6F]
  const TIMEOUT: Text := [0x74, 0x69, 0x6D, 0x65, 0x6F, 0x75, 0x74]

  function AsRecord(payload: Json): seq<Member> { if payload.Obj? then payload.members else [] }

  function ReadText(record: seq<Member>, key: Text): Option<Text> {
    match Lookup(record, key)
    case Some(Str(s)) => Some(s)
    case _ => None
  }

  function NormalizeAlias(value: Text): Option<Choice> {
    var word := ToLowerCase(Trim(value));
    if word == YES || word == APPROVE || word == APPROVED then Some(Yes)
    else if word == NO || word == REJECT || word == REJECTED then Some(No)
    else None
  }

  function ResolveChoice(payload: Json): Choice {
    var record := AsRecord(payload);
    var choice := ReadText(record, CHOICE);
    if choice == Some(YES) then Yes
    else if choice == Some(NO) then No
    else if Lookup(record, APPROVED) == Some(Bool(true)) then Yes
    else if Lookup(record, APPROVED) == Some(Bool(false)) then No
    else
      match ReadText(record, DECISION)
      case None => No
      case Some(d) => match NormalizeAlias(d) case Some(c) => c case None => No
  }

  function ResolveRationale(payload: Json): Option<Text> {
    var record := AsRecord(payload);
    if ReadText(record, RATIONALE).Some? then ReadText(record, RATIONALE)
    else if ReadText(record, REASON).Some? then ReadText(record, REASON)
    else if ReadText(record, NOTE).Some? then ReadText(record, NOTE)
    else ReadText(record, NOTES)
  }
}
