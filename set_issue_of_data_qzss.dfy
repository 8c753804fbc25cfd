/**
  SetIssueOfDataQzss: sets the QZSS issue of data for the clock (IODC) and the
  ephemeris (IODE), with an optional flag to override the RINEX values.
  Fields: Clock (int), Ephemeris (int), OverrideRinex (optional bool).
*/
module IssueOfDataQzssCmd {
  import opened Wrappers
  import opened Json
  import opened Codec
  import Permission

  const CmdName: string := "SetIssueOfDataQzss"

  /** `isValid()` read on any document: an object whose declared keys all pass their codecs. */
  predicate ValidDocument(doc: Value) {
    && doc.Object?
    && IntValid(Get(doc.members, "Clock"))
    && IntValid(Get(doc.members, "Ephemeris"))
    && OptionalBoolValid(Get(doc.members, "OverrideRinex"))
  }

  /** The declared parameter keys, in declaration order. */
  const DeclaredKeys: seq<string> := ["Clock", "Ephemeris", "OverrideRinex"]

  lemma DeclaredKeysDistinct()
    ensures forall i, j :: 0 <= i < j < |DeclaredKeys| ==> DeclaredKeys[i] != DeclaredKeys[j]
  {
  }

  /** The members the full constructor adds, in the order its setters run. */
  function ConstructedMembers(clock: int32, ephemeris: int32, overrideRinex: Option<bool>): Members {
    Zip(DeclaredKeys,
     [FormatInt(clock),
      FormatInt(ephemeris),
      FormatOptionalBool(overrideRinex)])
  }

  /** The constructed members are what the setters append to an empty document, one at a time. */
  lemma ConstructedMembersAppended(clock: int32, ephemeris: int32, overrideRinex: Option<bool>)
    ensures [] + [("Clock", FormatInt(clock))] + [("Ephemeris", FormatInt(ephemeris))] + [("OverrideRinex", FormatOptionalBool(overrideRinex))] == ConstructedMembers(clock, ephemeris, overrideRinex)
  {
  }

  /** In a document zipped from the declared keys, each key looks up the node at its own index. */
  lemma DeclaredKeysLookup(nodes: seq<Value>)
    requires |nodes| == |DeclaredKeys|
    ensures Get(Zip(DeclaredKeys, nodes), "Clock") == nodes[0]
    ensures Get(Zip(DeclaredKeys, nodes), "Ephemeris") == nodes[1]
    ensures Get(Zip(DeclaredKeys, nodes), "OverrideRinex") == nodes[2]
  {
    DeclaredKeysDistinct();
    GetZip(DeclaredKeys, nodes, 0);
    GetZip(DeclaredKeys, nodes, 1);
    GetZip(DeclaredKeys, nodes, 2);
  }

  /** A fully constructed document is valid, and each declared key decodes to its argument. */
  lemma ConstructedDocumentDecodes(clock: int32, ephemeris: int32, overrideRinex: Option<bool>)
    ensures ValidDocument(Object(ConstructedMembers(clock, ephemeris, overrideRinex)))
    ensures ParseInt(Get(ConstructedMembers(clock, ephemeris, overrideRinex), "Clock")) == Ok(clock)
    ensures ParseInt(Get(ConstructedMembers(clock, ephemeris, overrideRinex), "Ephemeris")) == Ok(ephemeris)
    ensures ParseOptionalBool(Get(ConstructedMembers(clock, ephemeris, overrideRinex), "OverrideRinex")) == Ok(overrideRinex)
  {
    DeclaredKeysLookup([FormatInt(clock),
      FormatInt(ephemeris),
      FormatOptionalBool(overrideRinex)]);
    OptionalRoundTrips(None, overrideRinex);
  }

  /** `isValid()` holds exactly when every getter would decode without throwing. */
  lemma ValidIffFieldsDecode(doc: Value)
    ensures ValidDocument(doc) <==>
      && doc.Object?
      && ParseInt(Get(doc.members, "Clock")).Ok?
      && ParseInt(Get(doc.members, "Ephemeris")).Ok?
      && ParseOptionalBool(Get(doc.members, "OverrideRinex")).Ok?
  {
  }

  /** A `Clock` member holding a string (or any non-integer) makes the document invalid. */
  lemma NonIntegerClockInvalid(doc: Value, s: string)
    requires doc.Object? && Find(doc.members, "Clock") == Some(Str(s))
    ensures !ValidDocument(doc)
  {
  }

  /** A document that is not an object is never valid, whatever it holds. */
  lemma NonObjectInvalid(doc: Value)
    requires !doc.Object?
    ensures !ValidDocument(doc)
  {
  }

  class SetIssueOfDataQzss {
    const name: string
    var members: Members

    /** The default constructor: an empty document, which is not valid: no declared key is present. */
    constructor Empty()
      ensures name == CmdName && members == []
      ensures !IsValid()
    {
      name := CmdName;
      members := [];
    }

    /** The full constructor: each setter once, in declaration order. */
    constructor (clock: int32, ephemeris: int32, overrideRinex: Option<bool>)
      ensures name == CmdName
      ensures members == ConstructedMembers(clock, ephemeris, overrideRinex)
      ensures IsValid()
      ensures Clock() == Ok(clock) && Ephemeris() == Ok(ephemeris) && OverrideRinex() == Ok(overrideRinex)
    {
      name := CmdName;
      members := [];
      new;
      SetClock(clock);
      SetEphemeris(ephemeris);
      SetOverrideRinex(overrideRinex);
      ConstructedMembersAppended(clock, ephemeris, overrideRinex);
      ConstructedDocumentDecodes(clock, ephemeris, overrideRinex);
    }

    predicate IsValid()
      reads this
      ensures IsValid() <==> Clock().Ok? && Ephemeris().Ok? && OverrideRinex().Ok?
    {
      ValidDocument(Object(members))
    }

    /** Executes only while the simulator is idle. */
    function ExecutePermission(): (mask: Permission.Mask)
      ensures Permission.Admits(mask, Permission.ExecuteIfIdle)
      ensures !Permission.Admits(mask, Permission.ExecuteIfSimulating)
    {
      Permission.ExecuteIfIdle
    }

    function Clock(): (r: Decoded<int32>)
      reads this
      ensures r.Ok? <==> IntValid(Get(members, "Clock"))
      ensures r.Ok? ==> Get(members, "Clock") == FormatInt(r.value)
    {
      ParseInt(Get(members, "Clock"))
    }

    method SetClock(clock: int32)
      modifies this
      ensures members == old(members) + [("Clock", FormatInt(clock))]
      ensures HasKey(members, "Clock")
      ensures Clock() == if HasKey(old(members), "Clock") then old(Clock()) else Ok(clock)
      ensures forall key :: key != "Clock" ==> Get(members, key) == Get(old(members), key)
    {
      AddMemberFrame(members, "Clock", FormatInt(clock));
      GetAfterAddMember(members, "Clock", FormatInt(clock), "Clock");
      members := members + [("Clock", FormatInt(clock))];
    }

    function Ephemeris(): (r: Decoded<int32>)
      reads this
      ensures r.Ok? <==> IntValid(Get(members, "Ephemeris"))
      ensures r.Ok? ==> Get(members, "Ephemeris") == FormatInt(r.value)
    {
      ParseInt(Get(members, "Ephemeris"))
    }

    method SetEphemeris(ephemeris: int32)
      modifies this
      ensures members == old(members) + [("Ephemeris", FormatInt(ephemeris))]
      ensures HasKey(members, "Ephemeris")
      ensures Ephemeris() == if HasKey(old(members), "Ephemeris") then old(Ephemeris()) else Ok(ephemeris)
      ensures forall key :: key != "Ephemeris" ==> Get(members, key) == Get(old(members), key)
    {
      AddMemberFrame(members, "Ephemeris", FormatInt(ephemeris));
      GetAfterAddMember(members, "Ephemeris", FormatInt(ephemeris), "Ephemeris");
      members := members + [("Ephemeris", FormatInt(ephemeris))];
    }

    function OverrideRinex(): (r: Decoded<Option<bool>>)
      reads this
      ensures r.Ok? <==> OptionalBoolValid(Get(members, "OverrideRinex"))
      ensures r.Ok? ==> Get(members, "OverrideRinex") == FormatOptionalBool(r.value)
    {
      ParseOptionalBool(Get(members, "OverrideRinex"))
    }

    /** Adds the member even for an absent value, which is stored as a null node. */
    method SetOverrideRinex(overrideRinex: Option<bool>)
      modifies this
      ensures members == old(members) + [("OverrideRinex", FormatOptionalBool(overrideRinex))]
      ensures HasKey(members, "OverrideRinex")
      ensures OverrideRinex() == if HasKey(old(members), "OverrideRinex") then old(OverrideRinex()) else Ok(overrideRinex)
      ensures forall key :: key != "OverrideRinex" ==> Get(members, key) == Get(old(members), key)
    {
      AddMemberFrame(members, "OverrideRinex", FormatOptionalBool(overrideRinex));
      GetAfterAddMember(members, "OverrideRinex", FormatOptionalBool(overrideRinex), "OverrideRinex");
      OptionalRoundTrips(None, overrideRinex);
      members := members + [("OverrideRinex", FormatOptionalBool(overrideRinex))];
    }
  }
}
