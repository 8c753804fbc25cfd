/**
  SetMessageModificationToBeiDouCNav1: creates or modifies an event that
  changes bits of the BeiDou CNAV1 navigation message.
  Fields: SignalArray (string array), SvId, StartTime, StopTime, Page (int),
  Condition (string), UpdateCRC (bool), BitModifications (string), Id (string).
*/
module BeiDouCNav1ModificationCmd {
  import opened Wrappers
  import opened Json
  import opened Codec
  import Permission

  const CmdName: string := "SetMessageModificationToBeiDouCNav1"

  /** `isValid()` read on any document: an object whose declared keys all pass their codecs. */
  predicate ValidDocument(doc: Value) {
    && doc.Object?
    && StringArrayValid(Get(doc.members, "SignalArray"))
    && IntValid(Get(doc.members, "SvId"))
    && IntValid(Get(doc.members, "StartTime"))
    && IntValid(Get(doc.members, "StopTime"))
    && IntValid(Get(doc.members, "Page"))
    && StringValid(Get(doc.members, "Condition"))
    && BoolValid(Get(doc.members, "UpdateCRC"))
    && StringValid(Get(doc.members, "BitModifications"))
    && StringValid(Get(doc.members, "Id"))
  }

  /** The declared parameter keys, in declaration order. */
  const DeclaredKeys: seq<string> := ["SignalArray", "SvId", "StartTime", "StopTime", "Page", "Condition", "UpdateCRC", "BitModifications", "Id"]

  lemma DeclaredKeysDistinct()
    ensures forall i, j :: 0 <= i < j < |DeclaredKeys| ==> DeclaredKeys[i] != DeclaredKeys[j]
  {
  }

  /** The members the full constructor adds, in the order its setters run. */
  function ConstructedMembers(signalArray: seq<string>, svId: int32, startTime: int32, stopTime: int32, page: int32, condition: string, updateCRC: bool, bitModifications: string, id: string): Members {
    Zip(DeclaredKeys,
     [FormatStringArray(signalArray),
      FormatInt(svId),
      FormatInt(startTime),
      FormatInt(stopTime),
      FormatInt(page),
      FormatString(condition),
      FormatBool(updateCRC),
      FormatString(bitModifications),
      FormatString(id)])
  }

  /** The constructed members are what the setters append to an empty document, one at a time. */
  lemma ConstructedMembersAppended(signalArray: seq<string>, svId: int32, startTime: int32, stopTime: int32, page: int32, condition: string, updateCRC: bool, bitModifications: string, id: string)
    ensures [] + [("SignalArray", FormatStringArray(signalArray))] + [("SvId", FormatInt(svId))] + [("StartTime", FormatInt(startTime))] + [("StopTime", FormatInt(stopTime))] + [("Page", FormatInt(page))] + [("Condition", FormatString(condition))] + [("UpdateCRC", FormatBool(updateCRC))] + [("BitModifications", FormatString(bitModifications))] + [("Id", FormatString(id))] == ConstructedMembers(signalArray, svId, startTime, stopTime, page, condition, updateCRC, bitModifications, id)
  {
  }

  /** In a document zipped from the declared keys, each key looks up the node at its own index. */
  lemma DeclaredKeysLookup(nodes: seq<Value>)
    requires |nodes| == |DeclaredKeys|
    ensures Get(Zip(DeclaredKeys, nodes), "SignalArray") == nodes[0]
    ensures Get(Zip(DeclaredKeys, nodes), "SvId") == nodes[1]
    ensures Get(Zip(DeclaredKeys, nodes), "StartTime") == nodes[2]
    ensures Get(Zip(DeclaredKeys, nodes), "StopTime") == nodes[3]
    ensures Get(Zip(DeclaredKeys, nodes), "Page") == nodes[4]
    ensures Get(Zip(DeclaredKeys, nodes), "Condition") == nodes[5]
    ensures Get(Zip(DeclaredKeys, nodes), "UpdateCRC") == nodes[6]
    ensures Get(Zip(DeclaredKeys, nodes), "BitModifications") == nodes[7]
    ensures Get(Zip(DeclaredKeys, nodes), "Id") == nodes[8]
  {
    DeclaredKeysDistinct();
    GetZip(DeclaredKeys, nodes, 0);
    GetZip(DeclaredKeys, nodes, 1);
    GetZip(DeclaredKeys, nodes, 2);
    GetZip(DeclaredKeys, nodes, 3);
    GetZip(DeclaredKeys, nodes, 4);
    GetZip(DeclaredKeys, nodes, 5);
    GetZip(DeclaredKeys, nodes, 6);
    GetZip(DeclaredKeys, nodes, 7);
    GetZip(DeclaredKeys, nodes, 8);
  }

  /** A fully constructed document is valid, and each declared key decodes to its argument. */
  lemma ConstructedDocumentDecodes(signalArray: seq<string>, svId: int32, startTime: int32, stopTime: int32, page: int32, condition: string, updateCRC: bool, bitModifications: string, id: string)
    ensures ValidDocument(Object(ConstructedMembers(signalArray, svId, startTime, stopTime, page, condition, updateCRC, bitModifications, id)))
    ensures ParseStringArray(Get(ConstructedMembers(signalArray, svId, startTime, stopTime, page, condition, updateCRC, bitModifications, id), "SignalArray")) == Ok(signalArray)
    ensures ParseInt(Get(ConstructedMembers(signalArray, svId, startTime, stopTime, page, condition, updateCRC, bitModifications, id), "SvId")) == Ok(svId)
    ensures ParseInt(Get(ConstructedMembers(signalArray, svId, startTime, stopTime, page, condition, updateCRC, bitModifications, id), "StartTime")) == Ok(startTime)
    ensures ParseInt(Get(ConstructedMembers(signalArray, svId, startTime, stopTime, page, condition, updateCRC, bitModifications, id), "StopTime")) == Ok(stopTime)
    ensures ParseInt(Get(ConstructedMembers(signalArray, svId, startTime, stopTime, page, condition, updateCRC, bitModifications, id), "Page")) == Ok(page)
    ensures ParseString(Get(ConstructedMembers(signalArray, svId, startTime, stopTime, page, condition, updateCRC, bitModifications, id), "Condition")) == Ok(condition)
    ensures ParseBool(Get(ConstructedMembers(signalArray, svId, startTime, stopTime, page, condition, updateCRC, bitModifications, id), "UpdateCRC")) == Ok(updateCRC)
    ensures ParseString(Get(ConstructedMembers(signalArray, svId, startTime, stopTime, page, condition, updateCRC, bitModifications, id), "BitModifications")) == Ok(bitModifications)
    ensures ParseString(Get(ConstructedMembers(signalArray, svId, startTime, stopTime, page, condition, updateCRC, bitModifications, id), "Id")) == Ok(id)
  {
    DeclaredKeysLookup([FormatStringArray(signalArray),
      FormatInt(svId),
      FormatInt(startTime),
      FormatInt(stopTime),
      FormatInt(page),
      FormatString(condition),
      FormatBool(updateCRC),
      FormatString(bitModifications),
      FormatString(id)]);
    StringArrayRoundTrip(signalArray);
  }

  /** `isValid()` holds exactly when every getter would decode without throwing. */
  lemma ValidIffFieldsDecode(doc: Value)
    ensures ValidDocument(doc) <==>
      && doc.Object?
      && ParseStringArray(Get(doc.members, "SignalArray")).Ok?
      && ParseInt(Get(doc.members, "SvId")).Ok?
      && ParseInt(Get(doc.members, "StartTime")).Ok?
      && ParseInt(Get(doc.members, "StopTime")).Ok?
      && ParseInt(Get(doc.members, "Page")).Ok?
      && ParseString(Get(doc.members, "Condition")).Ok?
      && ParseBool(Get(doc.members, "UpdateCRC")).Ok?
      && ParseString(Get(doc.members, "BitModifications")).Ok?
      && ParseString(Get(doc.members, "Id")).Ok?
  {
  }

  /** Re-sending a field through its setter does not change what the getter reads. */
  lemma SecondSvIdIsShadowed(signalArray: seq<string>, svId: int32, startTime: int32, stopTime: int32, page: int32, condition: string, updateCRC: bool, bitModifications: string, id: string, other: int32)
    ensures ParseInt(Get(ConstructedMembers(signalArray, svId, startTime, stopTime, page, condition, updateCRC, bitModifications, id) + [("SvId", FormatInt(other))], "SvId")) == Ok(svId)
  {
    var m := ConstructedMembers(signalArray, svId, startTime, stopTime, page, condition, updateCRC, bitModifications, id);
    FindFirst(m, "SvId", 1);
    AddMemberDoesNotOverwrite(m, "SvId", FormatInt(other));
  }

  class SetMessageModificationToBeiDouCNav1 {
    const name: string
    var members: Members

    /** The default constructor: an empty document, which is not valid: no declared key is present. */
    constructor Empty()
      ensures name == CmdName && members == []
      ensures !IsValid()
    {
      name := CmdName;
      members := [];
    }

    /** The full constructor: each setter once, in declaration order. */
    constructor (signalArray: seq<string>, svId: int32, startTime: int32, stopTime: int32, page: int32, condition: string, updateCRC: bool, bitModifications: string, id: string)
      ensures name == CmdName
      ensures members == ConstructedMembers(signalArray, svId, startTime, stopTime, page, condition, updateCRC, bitModifications, id)
      ensures IsValid()
      ensures SignalArray() == Ok(signalArray) && SvId() == Ok(svId) && StartTime() == Ok(startTime) && StopTime() == Ok(stopTime) && Page() == Ok(page) && Condition() == Ok(condition) && UpdateCRC() == Ok(updateCRC) && BitModifications() == Ok(bitModifications) && Id() == Ok(id)
    {
      name := CmdName;
      members := [];
      new;
      SetSignalArray(signalArray);
      SetSvId(svId);
      SetStartTime(startTime);
      SetStopTime(stopTime);
      SetPage(page);
      SetCondition(condition);
      SetUpdateCRC(updateCRC);
      SetBitModifications(bitModifications);
      SetId(id);
      ConstructedMembersAppended(signalArray, svId, startTime, stopTime, page, condition, updateCRC, bitModifications, id);
      ConstructedDocumentDecodes(signalArray, svId, startTime, stopTime, page, condition, updateCRC, bitModifications, id);
    }

    predicate IsValid()
      reads this
      ensures IsValid() <==> SignalArray().Ok? && SvId().Ok? && StartTime().Ok? && StopTime().Ok? && Page().Ok? && Condition().Ok? && UpdateCRC().Ok? && BitModifications().Ok? && Id().Ok?
    {
      ValidDocument(Object(members))
    }

    /** Executes while the simulator is idle and while it is simulating. */
    function ExecutePermission(): (mask: Permission.Mask)
      ensures Permission.Admits(mask, Permission.ExecuteIfIdle)
      ensures Permission.Admits(mask, Permission.ExecuteIfSimulating)
    {
      Permission.ExecuteIfSimulating | Permission.ExecuteIfIdle
    }

    function SignalArray(): (r: Decoded<seq<string>>)
      reads this
      ensures r.Ok? <==> StringArrayValid(Get(members, "SignalArray"))
      ensures r.Ok? ==> Get(members, "SignalArray") == FormatStringArray(r.value)
    {
      ParseStringArray(Get(members, "SignalArray"))
    }

    method SetSignalArray(signalArray: seq<string>)
      modifies this
      ensures members == old(members) + [("SignalArray", FormatStringArray(signalArray))]
      ensures HasKey(members, "SignalArray")
      ensures SignalArray() == if HasKey(old(members), "SignalArray") then old(SignalArray()) else Ok(signalArray)
      ensures forall key :: key != "SignalArray" ==> Get(members, key) == Get(old(members), key)
    {
      AddMemberFrame(members, "SignalArray", FormatStringArray(signalArray));
      GetAfterAddMember(members, "SignalArray", FormatStringArray(signalArray), "SignalArray");
      StringArrayRoundTrip(signalArray);
      members := members + [("SignalArray", FormatStringArray(signalArray))];
    }

    function SvId(): (r: Decoded<int32>)
      reads this
      ensures r.Ok? <==> IntValid(Get(members, "SvId"))
      ensures r.Ok? ==> Get(members, "SvId") == FormatInt(r.value)
    {
      ParseInt(Get(members, "SvId"))
    }

    method SetSvId(svId: int32)
      modifies this
      ensures members == old(members) + [("SvId", FormatInt(svId))]
      ensures HasKey(members, "SvId")
      ensures SvId() == if HasKey(old(members), "SvId") then old(SvId()) else Ok(svId)
      ensures forall key :: key != "SvId" ==> Get(members, key) == Get(old(members), key)
    {
      AddMemberFrame(members, "SvId", FormatInt(svId));
      GetAfterAddMember(members, "SvId", FormatInt(svId), "SvId");
      members := members + [("SvId", FormatInt(svId))];
    }

    function StartTime(): (r: Decoded<int32>)
      reads this
      ensures r.Ok? <==> IntValid(Get(members, "StartTime"))
      ensures r.Ok? ==> Get(members, "StartTime") == FormatInt(r.value)
    {
      ParseInt(Get(members, "StartTime"))
    }

    method SetStartTime(startTime: int32)
      modifies this
      ensures members == old(members) + [("StartTime", FormatInt(startTime))]
      ensures HasKey(members, "StartTime")
      ensures StartTime() == if HasKey(old(members), "StartTime") then old(StartTime()) else Ok(startTime)
      ensures forall key :: key != "StartTime" ==> Get(members, key) == Get(old(members), key)
    {
      AddMemberFrame(members, "StartTime", FormatInt(startTime));
      GetAfterAddMember(members, "StartTime", FormatInt(startTime), "StartTime");
      members := members + [("StartTime", FormatInt(startTime))];
    }

    function StopTime(): (r: Decoded<int32>)
      reads this
      ensures r.Ok? <==> IntValid(Get(members, "StopTime"))
      ensures r.Ok? ==> Get(members, "StopTime") == FormatInt(r.value)
    {
      ParseInt(Get(members, "StopTime"))
    }

    method SetStopTime(stopTime: int32)
      modifies this
      ensures members == old(members) + [("StopTime", FormatInt(stopTime))]
      ensures HasKey(members, "StopTime")
      ensures StopTime() == if HasKey(old(members), "StopTime") then old(StopTime()) else Ok(stopTime)
      ensures forall key :: key != "StopTime" ==> Get(members, key) == Get(old(members), key)
    {
      AddMemberFrame(members, "StopTime", FormatInt(stopTime));
      GetAfterAddMember(members, "StopTime", FormatInt(stopTime), "StopTime");
      members := members + [("StopTime", FormatInt(stopTime))];
    }

    function Page(): (r: Decoded<int32>)
      reads this
      ensures r.Ok? <==> IntValid(Get(members, "Page"))
      ensures r.Ok? ==> Get(members, "Page") == FormatInt(r.value)
    {
      ParseInt(Get(members, "Page"))
    }

    method SetPage(page: int32)
      modifies this
      ensures members == old(members) + [("Page", FormatInt(page))]
      ensures HasKey(members, "Page")
      ensures Page() == if HasKey(old(members), "Page") then old(Page()) else Ok(page)
      ensures forall key :: key != "Page" ==> Get(members, key) == Get(old(members), key)
    {
      AddMemberFrame(members, "Page", FormatInt(page));
      GetAfterAddMember(members, "Page", FormatInt(page), "Page");
      members := members + [("Page", FormatInt(page))];
    }

    function Condition(): (r: Decoded<string>)
      reads this
      ensures r.Ok? <==> StringValid(Get(members, "Condition"))
      ensures r.Ok? ==> Get(members, "Condition") == FormatString(r.value)
    {
      ParseString(Get(members, "Condition"))
    }

    method SetCondition(condition: string)
      modifies this
      ensures members == old(members) + [("Condition", FormatString(condition))]
      ensures HasKey(members, "Condition")
      ensures Condition() == if HasKey(old(members), "Condition") then old(Condition()) else Ok(condition)
      ensures forall key :: key != "Condition" ==> Get(members, key) == Get(old(members), key)
    {
      AddMemberFrame(members, "Condition", FormatString(condition));
      GetAfterAddMember(members, "Condition", FormatString(condition), "Condition");
      members := members + [("Condition", FormatString(condition))];
    }

    function UpdateCRC(): (r: Decoded<bool>)
      reads this
      ensures r.Ok? <==> BoolValid(Get(members, "UpdateCRC"))
      ensures r.Ok? ==> Get(members, "UpdateCRC") == FormatBool(r.value)
    {
      ParseBool(Get(members, "UpdateCRC"))
    }

    method SetUpdateCRC(updateCRC: bool)
      modifies this
      ensures members == old(members) + [("UpdateCRC", FormatBool(updateCRC))]
      ensures HasKey(members, "UpdateCRC")
      ensures UpdateCRC() == if HasKey(old(members), "UpdateCRC") then old(UpdateCRC()) else Ok(updateCRC)
      ensures forall key :: key != "UpdateCRC" ==> Get(members, key) == Get(old(members), key)
    {
      AddMemberFrame(members, "UpdateCRC", FormatBool(updateCRC));
      GetAfterAddMember(members, "UpdateCRC", FormatBool(updateCRC), "UpdateCRC");
      members := members + [("UpdateCRC", FormatBool(updateCRC))];
    }

    function BitModifications(): (r: Decoded<string>)
      reads this
      ensures r.Ok? <==> StringValid(Get(members, "BitModifications"))
      ensures r.Ok? ==> Get(members, "BitModifications") == FormatString(r.value)
    {
      ParseString(Get(members, "BitModifications"))
    }

    method SetBitModifications(bitModifications: string)
      modifies this
      ensures members == old(members) + [("BitModifications", FormatString(bitModifications))]
      ensures HasKey(members, "BitModifications")
      ensures BitModifications() == if HasKey(old(members), "BitModifications") then old(BitModifications()) else Ok(bitModifications)
      ensures forall key :: key != "BitModifications" ==> Get(members, key) == Get(old(members), key)
    {
      AddMemberFrame(members, "BitModifications", FormatString(bitModifications));
      GetAfterAddMember(members, "BitModifications", FormatString(bitModifications), "BitModifications");
      members := members + [("BitModifications", FormatString(bitModifications))];
    }

    function Id(): (r: Decoded<string>)
      reads this
      ensures r.Ok? <==> StringValid(Get(members, "Id"))
      ensures r.Ok? ==> Get(members, "Id") == FormatString(r.value)
    {
      ParseString(Get(members, "Id"))
    }

    method SetId(id: string)
      modifies this
      ensures members == old(members) + [("Id", FormatString(id))]
      ensures HasKey(members, "Id")
      ensures Id() == if HasKey(old(members), "Id") then old(Id()) else Ok(id)
      ensures forall key :: key != "Id" ==> Get(members, key) == Get(old(members), key)
    {
      AddMemberFrame(members, "Id", FormatString(id));
      GetAfterAddMember(members, "Id", FormatString(id), "Id");
      members := members + [("Id", FormatString(id))];
    }
  }
}
