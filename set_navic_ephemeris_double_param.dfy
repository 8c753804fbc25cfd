/**
  SetNavICEphemerisDoubleParam: sets one floating-point parameter of a NavIC
  satellite's ephemeris, in an optional named data set.
  Fields: SvId (int), ParamName (string), Val (double), DataSetName (optional string).
*/
module NavICEphemerisDoubleParamCmd {
  import opened Wrappers
  import opened Json
  import opened Codec
  import Permission

  const CmdName: string := "SetNavICEphemerisDoubleParam"

  /** `isValid()` read on any document: an object whose declared keys all pass their codecs. */
  predicate ValidDocument(doc: Value) {
    && doc.Object?
    && IntValid(Get(doc.members, "SvId"))
    && StringValid(Get(doc.members, "ParamName"))
    && DoubleValid(Get(doc.members, "Val"))
    && OptionalStringValid(Get(doc.members, "DataSetName"))
  }

  /** The declared parameter keys, in declaration order. */
  const DeclaredKeys: seq<string> := ["SvId", "ParamName", "Val", "DataSetName"]

  lemma DeclaredKeysDistinct()
    ensures forall i, j :: 0 <= i < j < |DeclaredKeys| ==> DeclaredKeys[i] != DeclaredKeys[j]
  {
  }

  /** The members the full constructor adds, in the order its setters run. */
  function ConstructedMembers(svId: int32, paramName: string, val: Double, dataSetName: Option<string>): Members {
    Zip(DeclaredKeys,
     [FormatInt(svId),
      FormatString(paramName),
      FormatDouble(val),
      FormatOptionalString(dataSetName)])
  }

  /** The constructed members are what the setters append to an empty document, one at a time. */
  lemma ConstructedMembersAppended(svId: int32, paramName: string, val: Double, dataSetName: Option<string>)
    ensures [] + [("SvId", FormatInt(svId))] + [("ParamName", FormatString(paramName))] + [("Val", FormatDouble(val))] + [("DataSetName", FormatOptionalString(dataSetName))] == ConstructedMembers(svId, paramName, val, dataSetName)
  {
  }

  /** In a document zipped from the declared keys, each key looks up the node at its own index. */
  lemma DeclaredKeysLookup(nodes: seq<Value>)
    requires |nodes| == |DeclaredKeys|
    ensures Get(Zip(DeclaredKeys, nodes), "SvId") == nodes[0]
    ensures Get(Zip(DeclaredKeys, nodes), "ParamName") == nodes[1]
    ensures Get(Zip(DeclaredKeys, nodes), "Val") == nodes[2]
    ensures Get(Zip(DeclaredKeys, nodes), "DataSetName") == nodes[3]
  {
    DeclaredKeysDistinct();
    GetZip(DeclaredKeys, nodes, 0);
    GetZip(DeclaredKeys, nodes, 1);
    GetZip(DeclaredKeys, nodes, 2);
    GetZip(DeclaredKeys, nodes, 3);
  }

  /** A fully constructed document is valid, and each declared key decodes to its argument. */
  lemma ConstructedDocumentDecodes(svId: int32, paramName: string, val: Double, dataSetName: Option<string>)
    ensures ValidDocument(Object(ConstructedMembers(svId, paramName, val, dataSetName)))
    ensures ParseInt(Get(ConstructedMembers(svId, paramName, val, dataSetName), "SvId")) == Ok(svId)
    ensures ParseString(Get(ConstructedMembers(svId, paramName, val, dataSetName), "ParamName")) == Ok(paramName)
    ensures ParseDouble(Get(ConstructedMembers(svId, paramName, val, dataSetName), "Val")) == Ok(val)
    ensures ParseOptionalString(Get(ConstructedMembers(svId, paramName, val, dataSetName), "DataSetName")) == Ok(dataSetName)
  {
    DeclaredKeysLookup([FormatInt(svId),
      FormatString(paramName),
      FormatDouble(val),
      FormatOptionalString(dataSetName)]);
    OptionalRoundTrips(dataSetName, None);
  }

  /** `isValid()` holds exactly when every getter would decode without throwing. */
  lemma ValidIffFieldsDecode(doc: Value)
    ensures ValidDocument(doc) <==>
      && doc.Object?
      && ParseInt(Get(doc.members, "SvId")).Ok?
      && ParseString(Get(doc.members, "ParamName")).Ok?
      && ParseDouble(Get(doc.members, "Val")).Ok?
      && ParseOptionalString(Get(doc.members, "DataSetName")).Ok?
  {
  }

  /** A `Val` member that is not a floating-point node (an integer node included) makes the document invalid. */
  lemma NonNumberValInvalid(doc: Value)
    requires doc.Object? && !Get(doc.members, "Val").Number?
    ensures !ValidDocument(doc)
  {
  }

  class SetNavICEphemerisDoubleParam {
    const name: string
    var members: Members

    /** The default constructor: an empty document, which is not valid: no declared key is present. */
    constructor Empty()
      ensures name == CmdName && members == []
      ensures !IsValid()
    {
      name := CmdName;
      members := [];
    }

    /** The full constructor: each setter once, in declaration order. */
    constructor (svId: int32, paramName: string, val: Double, dataSetName: Option<string>)
      ensures name == CmdName
      ensures members == ConstructedMembers(svId, paramName, val, dataSetName)
      ensures IsValid()
      ensures SvId() == Ok(svId) && ParamName() == Ok(paramName) && Val() == Ok(val) && DataSetName() == Ok(dataSetName)
    {
      name := CmdName;
      members := [];
      new;
      SetSvId(svId);
      SetParamName(paramName);
      SetVal(val);
      SetDataSetName(dataSetName);
      ConstructedMembersAppended(svId, paramName, val, dataSetName);
      ConstructedDocumentDecodes(svId, paramName, val, dataSetName);
    }

    predicate IsValid()
      reads this
      ensures IsValid() <==> SvId().Ok? && ParamName().Ok? && Val().Ok? && DataSetName().Ok?
    {
      ValidDocument(Object(members))
    }

    /** Executes only while the simulator is idle. */
    function ExecutePermission(): (mask: Permission.Mask)
      ensures Permission.Admits(mask, Permission.ExecuteIfIdle)
      ensures !Permission.Admits(mask, Permission.ExecuteIfSimulating)
    {
      Permission.ExecuteIfIdle
    }

    function SvId(): (r: Decoded<int32>)
      reads this
      ensures r.Ok? <==> IntValid(Get(members, "SvId"))
      ensures r.Ok? ==> Get(members, "SvId") == FormatInt(r.value)
    {
      ParseInt(Get(members, "SvId"))
    }

    method SetSvId(svId: int32)
      modifies this
      ensures members == old(members) + [("SvId", FormatInt(svId))]
      ensures HasKey(members, "SvId")
      ensures SvId() == if HasKey(old(members), "SvId") then old(SvId()) else Ok(svId)
      ensures forall key :: key != "SvId" ==> Get(members, key) == Get(old(members), key)
    {
      AddMemberFrame(members, "SvId", FormatInt(svId));
      GetAfterAddMember(members, "SvId", FormatInt(svId), "SvId");
      members := members + [("SvId", FormatInt(svId))];
    }

    function ParamName(): (r: Decoded<string>)
      reads this
      ensures r.Ok? <==> StringValid(Get(members, "ParamName"))
      ensures r.Ok? ==> Get(members, "ParamName") == FormatString(r.value)
    {
      ParseString(Get(members, "ParamName"))
    }

    method SetParamName(paramName: string)
      modifies this
      ensures members == old(members) + [("ParamName", FormatString(paramName))]
      ensures HasKey(members, "ParamName")
      ensures ParamName() == if HasKey(old(members), "ParamName") then old(ParamName()) else Ok(paramName)
      ensures forall key :: key != "ParamName" ==> Get(members, key) == Get(old(members), key)
    {
      AddMemberFrame(members, "ParamName", FormatString(paramName));
      GetAfterAddMember(members, "ParamName", FormatString(paramName), "ParamName");
      members := members + [("ParamName", FormatString(paramName))];
    }

    function Val(): (r: Decoded<Double>)
      reads this
      ensures r.Ok? <==> DoubleValid(Get(members, "Val"))
      ensures r.Ok? ==> Get(members, "Val") == FormatDouble(r.value)
    {
      ParseDouble(Get(members, "Val"))
    }

    method SetVal(val: Double)
      modifies this
      ensures members == old(members) + [("Val", FormatDouble(val))]
      ensures HasKey(members, "Val")
      ensures Val() == if HasKey(old(members), "Val") then old(Val()) else Ok(val)
      ensures forall key :: key != "Val" ==> Get(members, key) == Get(old(members), key)
    {
      AddMemberFrame(members, "Val", FormatDouble(val));
      GetAfterAddMember(members, "Val", FormatDouble(val), "Val");
      members := members + [("Val", FormatDouble(val))];
    }

    function DataSetName(): (r: Decoded<Option<string>>)
      reads this
      ensures r.Ok? <==> OptionalStringValid(Get(members, "DataSetName"))
      ensures r.Ok? ==> Get(members, "DataSetName") == FormatOptionalString(r.value)
    {
      ParseOptionalString(Get(members, "DataSetName"))
    }

    /** Adds the member even for an absent value, which is stored as a null node. */
    method SetDataSetName(dataSetName: Option<string>)
      modifies this
      ensures members == old(members) + [("DataSetName", FormatOptionalString(dataSetName))]
      ensures HasKey(members, "DataSetName")
      ensures DataSetName() == if HasKey(old(members), "DataSetName") then old(DataSetName()) else Ok(dataSetName)
      ensures forall key :: key != "DataSetName" ==> Get(members, key) == Get(old(members), key)
    {
      AddMemberFrame(members, "DataSetName", FormatOptionalString(dataSetName));
      GetAfterAddMember(members, "DataSetName", FormatOptionalString(dataSetName), "DataSetName");
      OptionalRoundTrips(dataSetName, None);
      members := members + [("DataSetName", FormatOptionalString(dataSetName))];
    }
  }
}
