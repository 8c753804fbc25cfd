/**
  GetGalileoSignalHealthForSV: queries the health of one signal component of
  a Galileo satellite, in an optional named data set.
  Fields: SvId (int), Component (string), DataSetName (optional string).
*/
module GalileoSignalHealthCmd {
  import opened Wrappers
  import opened Json
  import opened Codec
  import Permission

  const CmdName: string := "GetGalileoSignalHealthForSV"

  /** `isValid()` read on any document: an object whose declared keys all pass their codecs. */
  predicate ValidDocument(doc: Value) {
    && doc.Object?
    && IntValid(Get(doc.members, "SvId"))
    && StringValid(Get(doc.members, "Component"))
    && OptionalStringValid(Get(doc.members, "DataSetName"))
  }

  /** The declared parameter keys, in declaration order. */
  const DeclaredKeys: seq<string> := ["SvId", "Component", "DataSetName"]

  lemma DeclaredKeysDistinct()
    ensures forall i, j :: 0 <= i < j < |DeclaredKeys| ==> DeclaredKeys[i] != DeclaredKeys[j]
  {
  }

  /** The members the full constructor adds, in the order its setters run. */
  function ConstructedMembers(svId: int32, component: string, dataSetName: Option<string>): Members {
    Zip(DeclaredKeys,
     [FormatInt(svId),
      FormatString(component),
      FormatOptionalString(dataSetName)])
  }

  /** The constructed members are what the setters append to an empty document, one at a time. */
  lemma ConstructedMembersAppended(svId: int32, component: string, dataSetName: Option<string>)
    ensures [] + [("SvId", FormatInt(svId))] + [("Component", FormatString(component))] + [("DataSetName", FormatOptionalString(dataSetName))] == ConstructedMembers(svId, component, dataSetName)
  {
  }

  /** In a document zipped from the declared keys, each key looks up the node at its own index. */
  lemma DeclaredKeysLookup(nodes: seq<Value>)
    requires |nodes| == |DeclaredKeys|
    ensures Get(Zip(DeclaredKeys, nodes), "SvId") == nodes[0]
    ensures Get(Zip(DeclaredKeys, nodes), "Component") == nodes[1]
    ensures Get(Zip(DeclaredKeys, nodes), "DataSetName") == nodes[2]
  {
    DeclaredKeysDistinct();
    GetZip(DeclaredKeys, nodes, 0);
    GetZip(DeclaredKeys, nodes, 1);
    GetZip(DeclaredKeys, nodes, 2);
  }

  /** A fully constructed document is valid, and each declared key decodes to its argument. */
  lemma ConstructedDocumentDecodes(svId: int32, component: string, dataSetName: Option<string>)
    ensures ValidDocument(Object(ConstructedMembers(svId, component, dataSetName)))
    ensures ParseInt(Get(ConstructedMembers(svId, component, dataSetName), "SvId")) == Ok(svId)
    ensures ParseString(Get(ConstructedMembers(svId, component, dataSetName), "Component")) == Ok(component)
    ensures ParseOptionalString(Get(ConstructedMembers(svId, component, dataSetName), "DataSetName")) == Ok(dataSetName)
  {
    DeclaredKeysLookup([FormatInt(svId),
      FormatString(component),
      FormatOptionalString(dataSetName)]);
    OptionalRoundTrips(dataSetName, None);
  }

  /** `isValid()` holds exactly when every getter would decode without throwing. */
  lemma ValidIffFieldsDecode(doc: Value)
    ensures ValidDocument(doc) <==>
      && doc.Object?
      && ParseInt(Get(doc.members, "SvId")).Ok?
      && ParseString(Get(doc.members, "Component")).Ok?
      && ParseOptionalString(Get(doc.members, "DataSetName")).Ok?
  {
  }

  /** A missing `SvId` or `Component` reads as a null node, which fails its codec. */
  lemma MissingRequiredFieldInvalid(doc: Value)
    requires doc.Object? && (!HasKey(doc.members, "SvId") || !HasKey(doc.members, "Component"))
    ensures !ValidDocument(doc)
  {
  }

  /** A missing `DataSetName` is allowed: it reads as null, which the optional codec accepts as absent. */
  lemma MissingDataSetNameAllowed(doc: Value)
    requires doc.Object? && !HasKey(doc.members, "DataSetName")
    ensures ValidDocument(doc) <==> IntValid(Get(doc.members, "SvId")) && StringValid(Get(doc.members, "Component"))
    ensures ParseOptionalString(Get(doc.members, "DataSetName")) == Ok(None)
  {
  }

  class GetGalileoSignalHealthForSV {
    const name: string
    var members: Members

    /** The default constructor: an empty document, which is not valid: no declared key is present. */
    constructor Empty()
      ensures name == CmdName && members == []
      ensures !IsValid()
    {
      name := CmdName;
      members := [];
    }

    /** The full constructor: each setter once, in declaration order. */
    constructor (svId: int32, component: string, dataSetName: Option<string>)
      ensures name == CmdName
      ensures members == ConstructedMembers(svId, component, dataSetName)
      ensures IsValid()
      ensures SvId() == Ok(svId) && Component() == Ok(component) && DataSetName() == Ok(dataSetName)
    {
      name := CmdName;
      members := [];
      new;
      SetSvId(svId);
      SetComponent(component);
      SetDataSetName(dataSetName);
      ConstructedMembersAppended(svId, component, dataSetName);
      ConstructedDocumentDecodes(svId, component, dataSetName);
    }

    predicate IsValid()
      reads this
      ensures IsValid() <==> SvId().Ok? && Component().Ok? && DataSetName().Ok?
    {
      ValidDocument(Object(members))
    }

    /** Executes only while the simulator is idle. */
    function ExecutePermission(): (mask: Permission.Mask)
      ensures Permission.Admits(mask, Permission.ExecuteIfIdle)
      ensures !Permission.Admits(mask, Permission.ExecuteIfSimulating)
    {
      Permission.ExecuteIfIdle
    }

    function SvId(): (r: Decoded<int32>)
      reads this
      ensures r.Ok? <==> IntValid(Get(members, "SvId"))
      ensures r.Ok? ==> Get(members, "SvId") == FormatInt(r.value)
    {
      ParseInt(Get(members, "SvId"))
    }

    method SetSvId(svId: int32)
      modifies this
      ensures members == old(members) + [("SvId", FormatInt(svId))]
      ensures HasKey(members, "SvId")
      ensures SvId() == if HasKey(old(members), "SvId") then old(SvId()) else Ok(svId)
      ensures forall key :: key != "SvId" ==> Get(members, key) == Get(old(members), key)
    {
      AddMemberFrame(members, "SvId", FormatInt(svId));
      GetAfterAddMember(members, "SvId", FormatInt(svId), "SvId");
      members := members + [("SvId", FormatInt(svId))];
    }

    function Component(): (r: Decoded<string>)
      reads this
      ensures r.Ok? <==> StringValid(Get(members, "Component"))
      ensures r.Ok? ==> Get(members, "Component") == FormatString(r.value)
    {
      ParseString(Get(members, "Component"))
    }

    method SetComponent(component: string)
      modifies this
      ensures members == old(members) + [("Component", FormatString(component))]
      ensures HasKey(members, "Component")
      ensures Component() == if HasKey(old(members), "Component") then old(Component()) else Ok(component)
      ensures forall key :: key != "Component" ==> Get(members, key) == Get(old(members), key)
    {
      AddMemberFrame(members, "Component", FormatString(component));
      GetAfterAddMember(members, "Component", FormatString(component), "Component");
      members := members + [("Component", FormatString(component))];
    }

    function DataSetName(): (r: Decoded<Option<string>>)
      reads this
      ensures r.Ok? <==> OptionalStringValid(Get(members, "DataSetName"))
      ensures r.Ok? ==> Get(members, "DataSetName") == FormatOptionalString(r.value)
    {
      ParseOptionalString(Get(members, "DataSetName"))
    }

    /** Adds the member even for an absent value, which is stored as a null node. */
    method SetDataSetName(dataSetName: Option<string>)
      modifies this
      ensures members == old(members) + [("DataSetName", FormatOptionalString(dataSetName))]
      ensures HasKey(members, "DataSetName")
      ensures DataSetName() == if HasKey(old(members), "DataSetName") then old(DataSetName()) else Ok(dataSetName)
      ensures forall key :: key != "DataSetName" ==> Get(members, key) == Get(old(members), key)
    {
      AddMemberFrame(members, "DataSetName", FormatOptionalString(dataSetName));
      GetAfterAddMember(members, "DataSetName", FormatOptionalString(dataSetName), "DataSetName");
      OptionalRoundTrips(dataSetName, None);
      members := members + [("DataSetName", FormatOptionalString(dataSetName))];
    }
  }
}
