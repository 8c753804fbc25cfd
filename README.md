# Skydel remote API: command envelope, sub-state codec and the Galileo HAS phase-bias block

This project models three parts of the Skydel SDX software interface.

- **The generated command classes.** Each command stores its parameters in a JSON object document (a rapidjson document). Its setters encode a value with the field type's codec and append it under a fixed key. Its getters decode the first member with that key. `isValid` checks that the document is an object and that every declared key passes its codec. `executePermission` returns a constant mask of run-state flags. Four commands are modelled: `SetMessageModificationToBeiDouCNav1`, `SetNavICEphemerisDoubleParam`, `GetGalileoSignalHealthForSV` and `SetIssueOfDataQzss`. Each is a Dafny class whose `members` field is the ordered member list. Setters are methods that append to it; getters and `IsValid` are functions that read it.
- **The `parse_json<SimulatorSubState>` codec.** A validate/parse/format triple over the fifteen-member simulator sub-state enum (module `SimulatorSubStates`).
- **The Galileo HAS phase-bias block of the downlink parser** (section 5.2.6 of the Galileo HAS Signal-In-Space ICD), in module `GalileoHasPhase`.
  - `HandlePhaseBlock` declares the block's field layout on a parameter generator.
  - `Phase` and `PhaseBlock` walk the decoded field dictionary. They emit one record per set satellite-mask bit and, inside each record, one entry per set signal-mask bit.
  - Each loop is a method proved equal to a recursive specification function (`SignalEntries`, `SatelliteRecords`, `SystemBlock`, `Blocks`, `LayoutParams`). Lemmas about those functions state what the loops promise.

Modules:

| module | file | models |
|---|---|---|
| `Wrappers` | wrappers.dfy | `Option` and `Result` |
| `Json` | json.dfy | JSON nodes and object members. A lookup returns the first match; `AddMember` appends. |
| `Codec` | codec.dfy | the `parse_json<T>` strategies of the field types the commands use |
| `Permission` | permission.dfy | the `EXECUTE_IF_IDLE` and `EXECUTE_IF_SIMULATING` flags |
| `SimulatorSubStates` | simulator_sub_state.dfy | `SimulatorSubState` and its codec |
| `BeiDouCNav1ModificationCmd` | set_message_modification_to_beidou_cnav1.dfy | `SetMessageModificationToBeiDouCNav1` |
| `NavICEphemerisDoubleParamCmd` | set_navic_ephemeris_double_param.dfy | `SetNavICEphemerisDoubleParam` |
| `GalileoSignalHealthCmd` | get_galileo_signal_health_for_sv.dfy | `GetGalileoSignalHealthForSV` |
| `IssueOfDataQzssCmd` | set_issue_of_data_qzss.dfy | `SetIssueOfDataQzss` |
| `GalileoHasPhase` | phase_block.dfy | `phaseBlock`, `phase`, `handlePhaseBlock` and the `GNSS_ID` / `SIGNAL_MASK` tables |

Three behaviours of the code are easy to miss. The model follows the code in each:
- An absent optional field is still added to the document (as a null node), not omitted.
- Setting a key twice appends a second member, which a lookup never sees, instead of overwriting the first.
- The sub-state codec accepts any 32-bit integer, with no range check against the fifteen enumerators.

## Model

| member | source | states |
|---|---|---|
| Json.Find | Cpp/sdx_api/gen/SetNavICEphemerisDoubleParam.cpp:68-71 | a lookup that finds a node found a member holding the key and that node |
| Json.FindIsFirstMatch | Cpp/sdx_api/gen/SetNavICEphemerisDoubleParam.cpp:68-71 | a lookup succeeds exactly when some member has the key, and then returns the node of the first such member |
| Json.FindFirst | Cpp/sdx_api/gen/SetNavICEphemerisDoubleParam.cpp:68-71 | when index k holds the first member with the key, the lookup returns that member's node |
| Json.Zip | Cpp/sdx_api/gen/SetMessageModificationToBeiDouCNav1.cpp:26-39 | the zipped document has one member per key, member k pairing key k with node k, and its keys are the given keys in order |
| Json.Keys | Cpp/sdx_api/gen/SetMessageModificationToBeiDouCNav1.cpp:52-67 | the key list has one entry per member, entry k being member k's key |
| Json.FindDistinct | Cpp/sdx_api/gen/SetMessageModificationToBeiDouCNav1.cpp:26-39 | in a document with distinct keys, every member's key looks up that member's node |
| Json.GetZip | Cpp/sdx_api/gen/SetMessageModificationToBeiDouCNav1.cpp:26-39 | in a document zipped from distinct keys, key k reads node k |
| Json.FindAfterAddMember | Cpp/sdx_api/gen/SetNavICEphemerisDoubleParam.cpp:73-76 | after an append, a lookup sees the old first match if there was one, the new member if its key is the one sought, and nothing otherwise |
| Json.GetAfterAddMember | Cpp/sdx_api/gen/SetNavICEphemerisDoubleParam.cpp:73-76 | an append leaves every other key's node unchanged, is seen under its own key only when that key was absent, and adds exactly its own key |
| Json.AddMemberFrame | Cpp/sdx_api/gen/SetNavICEphemerisDoubleParam.cpp:73-76 | the same frame for all other keys at once, and the new member is found when its key was absent |
| Json.AddMemberDoesNotOverwrite | Cpp/sdx_api/gen/SetNavICEphemerisDoubleParam.cpp:73-76 | appending an existing key leaves that key's node as it was, while the document grows by one member |
| Permission.FlagsAreDistinctSingleBits | Cpp/sdx_api/gen/SetMessageModificationToBeiDouCNav1.cpp:72-75 | the idle and simulating flags are distinct single bits with no bit in common |
| Codec.FormatInt | Cpp/sdx_api/gen/SetNavICEphemerisDoubleParam.cpp:73-76 | an encoded int is a valid int node |
| Codec.ParseInt | Cpp/sdx_api/gen/SetNavICEphemerisDoubleParam.cpp:68-71 | decoding an int succeeds exactly on a 32-bit integer node, and that node is the encoding of the result |
| Codec.FormatBool | Cpp/sdx_api/gen/SetMessageModificationToBeiDouCNav1.cpp:155-158 | an encoded bool is a valid bool node |
| Codec.ParseBool | Cpp/sdx_api/gen/SetMessageModificationToBeiDouCNav1.cpp:150-153 | decoding a bool succeeds exactly on a bool node, and that node is the encoding of the result |
| Codec.FormatString | Cpp/sdx_api/gen/SetNavICEphemerisDoubleParam.cpp:85-88 | an encoded string is a valid string node |
| Codec.ParseString | Cpp/sdx_api/gen/SetNavICEphemerisDoubleParam.cpp:80-83 | decoding a string succeeds exactly on a string node, and that node is the encoding of the result |
| Codec.FormatDouble | Cpp/sdx_api/gen/SetNavICEphemerisDoubleParam.cpp:97-100 | an encoded double is a valid number node |
| Codec.ParseDouble | Cpp/sdx_api/gen/SetNavICEphemerisDoubleParam.cpp:92-95 | decoding a double succeeds exactly on a floating-point number node (integer nodes are assumed rejected), and that node is the encoding of the result |
| Codec.FormatStringArray | Cpp/sdx_api/gen/SetMessageModificationToBeiDouCNav1.cpp:83-86 | an encoded string list is a valid array node of the same length, element k being the string node of item k |
| Codec.ParseStringArray | Cpp/sdx_api/gen/SetMessageModificationToBeiDouCNav1.cpp:78-81 | decoding a string list succeeds exactly on an array of string nodes (the empty array included), giving one string per element, element by element |
| Codec.FormatOptionalString | Cpp/sdx_api/gen/SetNavICEphemerisDoubleParam.cpp:109-112 | an encoded optional string is valid, and it is null exactly when the value is absent |
| Codec.ParseOptionalString | Cpp/sdx_api/gen/SetNavICEphemerisDoubleParam.cpp:104-107 | decoding an optional string succeeds exactly on null or a string node, and that node is the encoding of the result |
| Codec.FormatOptionalBool | Cpp/sdx_api/gen/SetIssueOfDataQzss.cpp:95-98 | an encoded optional bool is valid, and it is null exactly when the value is absent |
| Codec.ParseOptionalBool | Cpp/sdx_api/gen/SetIssueOfDataQzss.cpp:90-93 | decoding an optional bool succeeds exactly on null or a bool node, and that node is the encoding of the result |
| Codec.ScalarRoundTrips | Cpp/sdx_api/gen/SetNavICEphemerisDoubleParam.cpp:68-100 | decode after encode gives back every int, bool, string and double |
| Codec.StringArrayRoundTrip | Cpp/sdx_api/gen/SetMessageModificationToBeiDouCNav1.cpp:78-86 | decode after encode gives back every list of strings |
| Codec.OptionalRoundTrips | Cpp/sdx_api/gen/SetNavICEphemerisDoubleParam.cpp:104-112 | decode after encode gives back every optional string and optional bool, absent ones included |
| SimulatorSubStates.Ordinal | Cpp/sdx_api/gen/SimulatorSubState.h:11 | every enumerator's ordinal lies in 0..14 |
| SimulatorSubStates.Named | Cpp/sdx_api/gen/SimulatorSubState.h:11 | an ordinal names an enumerator exactly when it lies in 0..14, and that enumerator has this ordinal |
| SimulatorSubStates.Parse | Cpp/sdx_api/gen/SimulatorSubState.h:18-23 | parse throws exactly on the nodes `is_valid` rejects, and otherwise returns the node's integer |
| SimulatorSubStates.Format | Cpp/sdx_api/gen/SimulatorSubState.h:24 | format yields the integer node of the value, which `is_valid` accepts |
| SimulatorSubStates.OrdinalsFollowDeclarationOrder | Cpp/sdx_api/gen/SimulatorSubState.h:11 | ordinals follow declaration order (SubStateNone = 0, Idle_ConfigNotValid = 1, Started_Streaming = 4, Error = 9, Started_WFMasterInit = 14), and distinct enumerators have distinct ordinals |
| SimulatorSubStates.NamedOrdinal | Cpp/sdx_api/gen/SimulatorSubState.h:11 | the name lookup inverts the ordinal |
| SimulatorSubStates.RoundTrip | Cpp/sdx_api/gen/SimulatorSubState.h:22-24 | `is_valid(format(s))` and `parse(format(s)) == s` for every value of the enum type |
| SimulatorSubStates.EnumeratorRoundTrip | Cpp/sdx_api/gen/SimulatorSubState.h:22-24 | every enumerator survives format then parse and is recognised again by name |
| SimulatorSubStates.FormatParse | Cpp/sdx_api/gen/SimulatorSubState.h:22-24 | format after parse gives back every node `is_valid` accepts |
| SimulatorSubStates.AgreesWithIntCodec | Cpp/sdx_api/gen/SimulatorSubState.h:17-23 | the codec accepts the same nodes as the int codec and decodes them to the same integer |
| SimulatorSubStates.OutOfRangeOrdinalAccepted | Cpp/sdx_api/gen/SimulatorSubState.h:17-22 | ordinal 99 names no enumerator, yet `is_valid` accepts it and `parse` returns it |
| SimulatorSubStates.NonIntegerRejected | Cpp/sdx_api/gen/SimulatorSubState.h:17-21 | parse throws on a string node, on null and on an integer beyond 32 bits |
| BeiDouCNav1ModificationCmd.SecondSvIdIsShadowed | Cpp/sdx_api/gen/SetMessageModificationToBeiDouCNav1.cpp:95-98 | after the full constructor, setting `SvId` again leaves the getter returning the first value |
| NavICEphemerisDoubleParamCmd.NonNumberValInvalid | Cpp/sdx_api/gen/SetNavICEphemerisDoubleParam.cpp:53 | a `Val` member that is not a floating-point node (an integer node included, by the double-codec assumption) makes the document invalid |
| GalileoSignalHealthCmd.MissingRequiredFieldInvalid | Cpp/sdx_api/gen/GetGalileoSignalHealthForSV.cpp:50-51 | a document missing `SvId` or `Component` is invalid |
| GalileoSignalHealthCmd.MissingDataSetNameAllowed | Cpp/sdx_api/gen/GetGalileoSignalHealthForSV.cpp:52 | without a `DataSetName` member, validity depends on `SvId` and `Component` alone, and the optional decodes as absent |
| IssueOfDataQzssCmd.NonIntegerClockInvalid | Cpp/sdx_api/gen/SetIssueOfDataQzss.cpp:50 | a `Clock` member holding a string makes the document invalid |
| IssueOfDataQzssCmd.NonObjectInvalid | Cpp/sdx_api/gen/SetIssueOfDataQzss.cpp:49 | a document that is not an object is never valid |
| BeiDouCNav1ModificationCmd.ValidIffFieldsDecode | Cpp/sdx_api/gen/SetMessageModificationToBeiDouCNav1.cpp:52-67 | `isValid` holds on a document exactly when it is an object and every declared key (SignalArray, SvId, StartTime, StopTime, Page, Condition, UpdateCRC, BitModifications, Id) decodes with its field's codec |
| BeiDouCNav1ModificationCmd.ConstructedDocumentDecodes | Cpp/sdx_api/gen/SetMessageModificationToBeiDouCNav1.cpp:26-39 | the document the full constructor builds is valid and each declared key decodes to the constructor argument of that field |
| BeiDouCNav1ModificationCmd.DeclaredKeysDistinct | Cpp/sdx_api/gen/SetMessageModificationToBeiDouCNav1.cpp:26-39 | the declared keys are pairwise distinct, so the constructed document holds each key once |
| BeiDouCNav1ModificationCmd.SetMessageModificationToBeiDouCNav1.Empty | Cpp/sdx_api/gen/SetMessageModificationToBeiDouCNav1.cpp:22-24 | the default constructor sets the command name and an empty document, on which `isValid` is false |
| BeiDouCNav1ModificationCmd.SetMessageModificationToBeiDouCNav1.constructor | Cpp/sdx_api/gen/SetMessageModificationToBeiDouCNav1.cpp:26-39 | the full constructor sets the command name, appends one member per field in declaration order, leaves a valid document, and every getter returns its argument |
| BeiDouCNav1ModificationCmd.SetMessageModificationToBeiDouCNav1.IsValid | Cpp/sdx_api/gen/SetMessageModificationToBeiDouCNav1.cpp:52-67 | `isValid` holds exactly when every getter decodes without throwing |
| BeiDouCNav1ModificationCmd.SetMessageModificationToBeiDouCNav1.ExecutePermission | Cpp/sdx_api/gen/SetMessageModificationToBeiDouCNav1.cpp:72-75 | the returned mask admits both the idle and the simulating flag |
| BeiDouCNav1ModificationCmd.SetMessageModificationToBeiDouCNav1.SignalArray | Cpp/sdx_api/gen/SetMessageModificationToBeiDouCNav1.cpp:78-81 | the getter decodes the first `SignalArray` member (null when missing) with the string array codec: it succeeds exactly when that node is valid, and the node is the encoding of the value returned |
| BeiDouCNav1ModificationCmd.SetMessageModificationToBeiDouCNav1.SetSignalArray | Cpp/sdx_api/gen/SetMessageModificationToBeiDouCNav1.cpp:83-86 | the setter appends one `SignalArray` member holding the encoded value; the key is then present; the getter returns the new value only when the key was absent before (first match wins), and every other key reads as before |
| BeiDouCNav1ModificationCmd.SetMessageModificationToBeiDouCNav1.SvId | Cpp/sdx_api/gen/SetMessageModificationToBeiDouCNav1.cpp:90-93 | the getter decodes the first `SvId` member (null when missing) with the int codec: it succeeds exactly when that node is valid, and the node is the encoding of the value returned |
| BeiDouCNav1ModificationCmd.SetMessageModificationToBeiDouCNav1.SetSvId | Cpp/sdx_api/gen/SetMessageModificationToBeiDouCNav1.cpp:95-98 | the setter appends one `SvId` member holding the encoded value; the key is then present; the getter returns the new value only when the key was absent before (first match wins), and every other key reads as before |
| BeiDouCNav1ModificationCmd.SetMessageModificationToBeiDouCNav1.StartTime | Cpp/sdx_api/gen/SetMessageModificationToBeiDouCNav1.cpp:102-105 | the getter decodes the first `StartTime` member (null when missing) with the int codec: it succeeds exactly when that node is valid, and the node is the encoding of the value returned |
| BeiDouCNav1ModificationCmd.SetMessageModificationToBeiDouCNav1.SetStartTime | Cpp/sdx_api/gen/SetMessageModificationToBeiDouCNav1.cpp:107-110 | the setter appends one `StartTime` member holding the encoded value; the key is then present; the getter returns the new value only when the key was absent before (first match wins), and every other key reads as before |
| BeiDouCNav1ModificationCmd.SetMessageModificationToBeiDouCNav1.StopTime | Cpp/sdx_api/gen/SetMessageModificationToBeiDouCNav1.cpp:114-117 | the getter decodes the first `StopTime` member (null when missing) with the int codec: it succeeds exactly when that node is valid, and the node is the encoding of the value returned |
| BeiDouCNav1ModificationCmd.SetMessageModificationToBeiDouCNav1.SetStopTime | Cpp/sdx_api/gen/SetMessageModificationToBeiDouCNav1.cpp:119-122 | the setter appends one `StopTime` member holding the encoded value; the key is then present; the getter returns the new value only when the key was absent before (first match wins), and every other key reads as before |
| BeiDouCNav1ModificationCmd.SetMessageModificationToBeiDouCNav1.Page | Cpp/sdx_api/gen/SetMessageModificationToBeiDouCNav1.cpp:126-129 | the getter decodes the first `Page` member (null when missing) with the int codec: it succeeds exactly when that node is valid, and the node is the encoding of the value returned |
| BeiDouCNav1ModificationCmd.SetMessageModificationToBeiDouCNav1.SetPage | Cpp/sdx_api/gen/SetMessageModificationToBeiDouCNav1.cpp:131-134 | the setter appends one `Page` member holding the encoded value; the key is then present; the getter returns the new value only when the key was absent before (first match wins), and every other key reads as before |
| BeiDouCNav1ModificationCmd.SetMessageModificationToBeiDouCNav1.Condition | Cpp/sdx_api/gen/SetMessageModificationToBeiDouCNav1.cpp:138-141 | the getter decodes the first `Condition` member (null when missing) with the string codec: it succeeds exactly when that node is valid, and the node is the encoding of the value returned |
| BeiDouCNav1ModificationCmd.SetMessageModificationToBeiDouCNav1.SetCondition | Cpp/sdx_api/gen/SetMessageModificationToBeiDouCNav1.cpp:143-146 | the setter appends one `Condition` member holding the encoded value; the key is then present; the getter returns the new value only when the key was absent before (first match wins), and every other key reads as before |
| BeiDouCNav1ModificationCmd.SetMessageModificationToBeiDouCNav1.UpdateCRC | Cpp/sdx_api/gen/SetMessageModificationToBeiDouCNav1.cpp:150-153 | the getter decodes the first `UpdateCRC` member (null when missing) with the bool codec: it succeeds exactly when that node is valid, and the node is the encoding of the value returned |
| BeiDouCNav1ModificationCmd.SetMessageModificationToBeiDouCNav1.SetUpdateCRC | Cpp/sdx_api/gen/SetMessageModificationToBeiDouCNav1.cpp:155-158 | the setter appends one `UpdateCRC` member holding the encoded value; the key is then present; the getter returns the new value only when the key was absent before (first match wins), and every other key reads as before |
| BeiDouCNav1ModificationCmd.SetMessageModificationToBeiDouCNav1.BitModifications | Cpp/sdx_api/gen/SetMessageModificationToBeiDouCNav1.cpp:162-165 | the getter decodes the first `BitModifications` member (null when missing) with the string codec: it succeeds exactly when that node is valid, and the node is the encoding of the value returned |
| BeiDouCNav1ModificationCmd.SetMessageModificationToBeiDouCNav1.SetBitModifications | Cpp/sdx_api/gen/SetMessageModificationToBeiDouCNav1.cpp:167-170 | the setter appends one `BitModifications` member holding the encoded value; the key is then present; the getter returns the new value only when the key was absent before (first match wins), and every other key reads as before |
| BeiDouCNav1ModificationCmd.SetMessageModificationToBeiDouCNav1.Id | Cpp/sdx_api/gen/SetMessageModificationToBeiDouCNav1.cpp:174-177 | the getter decodes the first `Id` member (null when missing) with the string codec: it succeeds exactly when that node is valid, and the node is the encoding of the value returned |
| BeiDouCNav1ModificationCmd.SetMessageModificationToBeiDouCNav1.SetId | Cpp/sdx_api/gen/SetMessageModificationToBeiDouCNav1.cpp:179-182 | the setter appends one `Id` member holding the encoded value; the key is then present; the getter returns the new value only when the key was absent before (first match wins), and every other key reads as before |
| NavICEphemerisDoubleParamCmd.ValidIffFieldsDecode | Cpp/sdx_api/gen/SetNavICEphemerisDoubleParam.cpp:47-57 | `isValid` holds on a document exactly when it is an object and every declared key (SvId, ParamName, Val, DataSetName) decodes with its field's codec |
| NavICEphemerisDoubleParamCmd.ConstructedDocumentDecodes | Cpp/sdx_api/gen/SetNavICEphemerisDoubleParam.cpp:26-34 | the document the full constructor builds is valid and each declared key decodes to the constructor argument of that field |
| NavICEphemerisDoubleParamCmd.DeclaredKeysDistinct | Cpp/sdx_api/gen/SetNavICEphemerisDoubleParam.cpp:26-34 | the declared keys are pairwise distinct, so the constructed document holds each key once |
| NavICEphemerisDoubleParamCmd.SetNavICEphemerisDoubleParam.Empty | Cpp/sdx_api/gen/SetNavICEphemerisDoubleParam.cpp:22-24 | the default constructor sets the command name and an empty document, on which `isValid` is false |
| NavICEphemerisDoubleParamCmd.SetNavICEphemerisDoubleParam.constructor | Cpp/sdx_api/gen/SetNavICEphemerisDoubleParam.cpp:26-34 | the full constructor sets the command name, appends one member per field in declaration order, leaves a valid document, and every getter returns its argument |
| NavICEphemerisDoubleParamCmd.SetNavICEphemerisDoubleParam.IsValid | Cpp/sdx_api/gen/SetNavICEphemerisDoubleParam.cpp:47-57 | `isValid` holds exactly when every getter decodes without throwing |
| NavICEphemerisDoubleParamCmd.SetNavICEphemerisDoubleParam.ExecutePermission | Cpp/sdx_api/gen/SetNavICEphemerisDoubleParam.cpp:62-65 | the returned mask admits the idle flag and not the simulating flag |
| NavICEphemerisDoubleParamCmd.SetNavICEphemerisDoubleParam.SvId | Cpp/sdx_api/gen/SetNavICEphemerisDoubleParam.cpp:68-71 | the getter decodes the first `SvId` member (null when missing) with the int codec: it succeeds exactly when that node is valid, and the node is the encoding of the value returned |
| NavICEphemerisDoubleParamCmd.SetNavICEphemerisDoubleParam.SetSvId | Cpp/sdx_api/gen/SetNavICEphemerisDoubleParam.cpp:73-76 | the setter appends one `SvId` member holding the encoded value; the key is then present; the getter returns the new value only when the key was absent before (first match wins), and every other key reads as before |
| NavICEphemerisDoubleParamCmd.SetNavICEphemerisDoubleParam.ParamName | Cpp/sdx_api/gen/SetNavICEphemerisDoubleParam.cpp:80-83 | the getter decodes the first `ParamName` member (null when missing) with the string codec: it succeeds exactly when that node is valid, and the node is the encoding of the value returned |
| NavICEphemerisDoubleParamCmd.SetNavICEphemerisDoubleParam.SetParamName | Cpp/sdx_api/gen/SetNavICEphemerisDoubleParam.cpp:85-88 | the setter appends one `ParamName` member holding the encoded value; the key is then present; the getter returns the new value only when the key was absent before (first match wins), and every other key reads as before |
| NavICEphemerisDoubleParamCmd.SetNavICEphemerisDoubleParam.Val | Cpp/sdx_api/gen/SetNavICEphemerisDoubleParam.cpp:92-95 | the getter decodes the first `Val` member (null when missing) with the double codec: it succeeds exactly when that node is valid, and the node is the encoding of the value returned |
| NavICEphemerisDoubleParamCmd.SetNavICEphemerisDoubleParam.SetVal | Cpp/sdx_api/gen/SetNavICEphemerisDoubleParam.cpp:97-100 | the setter appends one `Val` member holding the encoded value; the key is then present; the getter returns the new value only when the key was absent before (first match wins), and every other key reads as before |
| NavICEphemerisDoubleParamCmd.SetNavICEphemerisDoubleParam.DataSetName | Cpp/sdx_api/gen/SetNavICEphemerisDoubleParam.cpp:104-107 | the getter decodes the first `DataSetName` member (null when missing) with the optional string codec: it succeeds exactly when that node is valid, and the node is the encoding of the value returned |
| NavICEphemerisDoubleParamCmd.SetNavICEphemerisDoubleParam.SetDataSetName | Cpp/sdx_api/gen/SetNavICEphemerisDoubleParam.cpp:109-112 | the setter appends one `DataSetName` member holding the encoded value; the key is then present; the getter returns the new value only when the key was absent before (first match wins), and every other key reads as before |
| GalileoSignalHealthCmd.ValidIffFieldsDecode | Cpp/sdx_api/gen/GetGalileoSignalHealthForSV.cpp:46-55 | `isValid` holds on a document exactly when it is an object and every declared key (SvId, Component, DataSetName) decodes with its field's codec |
| GalileoSignalHealthCmd.ConstructedDocumentDecodes | Cpp/sdx_api/gen/GetGalileoSignalHealthForSV.cpp:26-33 | the document the full constructor builds is valid and each declared key decodes to the constructor argument of that field |
| GalileoSignalHealthCmd.DeclaredKeysDistinct | Cpp/sdx_api/gen/GetGalileoSignalHealthForSV.cpp:26-33 | the declared keys are pairwise distinct, so the constructed document holds each key once |
| GalileoSignalHealthCmd.GetGalileoSignalHealthForSV.Empty | Cpp/sdx_api/gen/GetGalileoSignalHealthForSV.cpp:22-24 | the default constructor sets the command name and an empty document, on which `isValid` is false |
| GalileoSignalHealthCmd.GetGalileoSignalHealthForSV.constructor | Cpp/sdx_api/gen/GetGalileoSignalHealthForSV.cpp:26-33 | the full constructor sets the command name, appends one member per field in declaration order, leaves a valid document, and every getter returns its argument |
| GalileoSignalHealthCmd.GetGalileoSignalHealthForSV.IsValid | Cpp/sdx_api/gen/GetGalileoSignalHealthForSV.cpp:46-55 | `isValid` holds exactly when every getter decodes without throwing |
| GalileoSignalHealthCmd.GetGalileoSignalHealthForSV.ExecutePermission | Cpp/sdx_api/gen/GetGalileoSignalHealthForSV.cpp:60-63 | the returned mask admits the idle flag and not the simulating flag |
| GalileoSignalHealthCmd.GetGalileoSignalHealthForSV.SvId | Cpp/sdx_api/gen/GetGalileoSignalHealthForSV.cpp:66-69 | the getter decodes the first `SvId` member (null when missing) with the int codec: it succeeds exactly when that node is valid, and the node is the encoding of the value returned |
| GalileoSignalHealthCmd.GetGalileoSignalHealthForSV.SetSvId | Cpp/sdx_api/gen/GetGalileoSignalHealthForSV.cpp:71-74 | the setter appends one `SvId` member holding the encoded value; the key is then present; the getter returns the new value only when the key was absent before (first match wins), and every other key reads as before |
| GalileoSignalHealthCmd.GetGalileoSignalHealthForSV.Component | Cpp/sdx_api/gen/GetGalileoSignalHealthForSV.cpp:78-81 | the getter decodes the first `Component` member (null when missing) with the string codec: it succeeds exactly when that node is valid, and the node is the encoding of the value returned |
| GalileoSignalHealthCmd.GetGalileoSignalHealthForSV.SetComponent | Cpp/sdx_api/gen/GetGalileoSignalHealthForSV.cpp:83-86 | the setter appends one `Component` member holding the encoded value; the key is then present; the getter returns the new value only when the key was absent before (first match wins), and every other key reads as before |
| GalileoSignalHealthCmd.GetGalileoSignalHealthForSV.DataSetName | Cpp/sdx_api/gen/GetGalileoSignalHealthForSV.cpp:90-93 | the getter decodes the first `DataSetName` member (null when missing) with the optional string codec: it succeeds exactly when that node is valid, and the node is the encoding of the value returned |
| GalileoSignalHealthCmd.GetGalileoSignalHealthForSV.SetDataSetName | Cpp/sdx_api/gen/GetGalileoSignalHealthForSV.cpp:95-98 | the setter appends one `DataSetName` member holding the encoded value; the key is then present; the getter returns the new value only when the key was absent before (first match wins), and every other key reads as before |
| IssueOfDataQzssCmd.ValidIffFieldsDecode | Cpp/sdx_api/gen/SetIssueOfDataQzss.cpp:46-55 | `isValid` holds on a document exactly when it is an object and every declared key (Clock, Ephemeris, OverrideRinex) decodes with its field's codec |
| IssueOfDataQzssCmd.ConstructedDocumentDecodes | Cpp/sdx_api/gen/SetIssueOfDataQzss.cpp:26-33 | the document the full constructor builds is valid and each declared key decodes to the constructor argument of that field |
| IssueOfDataQzssCmd.DeclaredKeysDistinct | Cpp/sdx_api/gen/SetIssueOfDataQzss.cpp:26-33 | the declared keys are pairwise distinct, so the constructed document holds each key once |
| IssueOfDataQzssCmd.SetIssueOfDataQzss.Empty | Cpp/sdx_api/gen/SetIssueOfDataQzss.cpp:22-24 | the default constructor sets the command name and an empty document, on which `isValid` is false |
| IssueOfDataQzssCmd.SetIssueOfDataQzss.constructor | Cpp/sdx_api/gen/SetIssueOfDataQzss.cpp:26-33 | the full constructor sets the command name, appends one member per field in declaration order, leaves a valid document, and every getter returns its argument |
| IssueOfDataQzssCmd.SetIssueOfDataQzss.IsValid | Cpp/sdx_api/gen/SetIssueOfDataQzss.cpp:46-55 | `isValid` holds exactly when every getter decodes without throwing |
| IssueOfDataQzssCmd.SetIssueOfDataQzss.ExecutePermission | Cpp/sdx_api/gen/SetIssueOfDataQzss.cpp:60-63 | the returned mask admits the idle flag and not the simulating flag |
| IssueOfDataQzssCmd.SetIssueOfDataQzss.Clock | Cpp/sdx_api/gen/SetIssueOfDataQzss.cpp:66-69 | the getter decodes the first `Clock` member (null when missing) with the int codec: it succeeds exactly when that node is valid, and the node is the encoding of the value returned |
| IssueOfDataQzssCmd.SetIssueOfDataQzss.SetClock | Cpp/sdx_api/gen/SetIssueOfDataQzss.cpp:71-74 | the setter appends one `Clock` member holding the encoded value; the key is then present; the getter returns the new value only when the key was absent before (first match wins), and every other key reads as before |
| IssueOfDataQzssCmd.SetIssueOfDataQzss.Ephemeris | Cpp/sdx_api/gen/SetIssueOfDataQzss.cpp:78-81 | the getter decodes the first `Ephemeris` member (null when missing) with the int codec: it succeeds exactly when that node is valid, and the node is the encoding of the value returned |
| IssueOfDataQzssCmd.SetIssueOfDataQzss.SetEphemeris | Cpp/sdx_api/gen/SetIssueOfDataQzss.cpp:83-86 | the setter appends one `Ephemeris` member holding the encoded value; the key is then present; the getter returns the new value only when the key was absent before (first match wins), and every other key reads as before |
| IssueOfDataQzssCmd.SetIssueOfDataQzss.OverrideRinex | Cpp/sdx_api/gen/SetIssueOfDataQzss.cpp:90-93 | the getter decodes the first `OverrideRinex` member (null when missing) with the optional bool codec: it succeeds exactly when that node is valid, and the node is the encoding of the value returned |
| IssueOfDataQzssCmd.SetIssueOfDataQzss.SetOverrideRinex | Cpp/sdx_api/gen/SetIssueOfDataQzss.cpp:95-98 | the setter appends one `OverrideRinex` member holding the encoded value; the key is then present; the getter returns the new value only when the key was absent before (first match wins), and every other key reads as before |
| GalileoHasPhase.GnssName | Python/downlink_parser/galileo_has_message/phase_block.py:3 | a GNSS identifier has a name exactly when it is 0 (GPS) or 2 (Galileo) |
| GalileoHasPhase.SignalTable | Python/downlink_parser/galileo_has_message/phase_block.py:4-6 | the signal table knows the same two GNSS identifiers as the name table, with sixteen signal names each |
| GalileoHasPhase.SetPositionsAreTheSetBits | Python/downlink_parser/galileo_has_message/phase_block.py:15-16 | the positions the mask walk stops at are exactly the set bits of the mask, each once, in increasing (mask) order |
| GalileoHasPhase.SetPositionsAreSet | Python/downlink_parser/galileo_has_message/phase_block.py:15-16 | every position listed is a set bit of the mask |
| GalileoHasPhase.SetPositionsIncrease | Python/downlink_parser/galileo_has_message/phase_block.py:15-16 | the positions are listed in strictly increasing order |
| GalileoHasPhase.SetPositionsListAll | Python/downlink_parser/galileo_has_message/phase_block.py:15-16 | every set bit of the mask is listed |
| GalileoHasPhase.SetPositionsSnoc | Python/downlink_parser/galileo_has_message/phase_block.py:15-16 | one more mask bit adds its position exactly when the bit is set |
| GalileoHasPhase.SignalEntryMeaning | Python/downlink_parser/galileo_has_message/phase_block.py:22-26 | one signal entry decodes exactly when the GNSS has a signal table, the signal position is below 16 and both bias fields are in the message; it then names the table's signal at that position and carries the two fields' values |
| GalileoHasPhase.SignalEntriesDecode | Python/downlink_parser/galileo_has_message/phase_block.py:18-28 | a satellite's entries decode exactly when the entry of every set signal bit decodes, and then there is one entry per set bit |
| GalileoHasPhase.SignalEntriesValues | Python/downlink_parser/galileo_has_message/phase_block.py:18-28 | in a decoded satellite, entry `j` is the entry of the `j`-th set signal bit, read with signal counter `j + 1` |
| GalileoHasPhase.SignalEntriesShape | Python/downlink_parser/galileo_has_message/phase_block.py:18-28 | the same three facts together: decodes iff every set bit's entry does, one entry per set bit, entry `j` read with counter `j + 1` |
| GalileoHasPhase.EntriesDecodeClearBit | Python/downlink_parser/galileo_has_message/phase_block.py:20-28 | a clear signal bit adds no entry and keeps the decoding claim |
| GalileoHasPhase.EntriesDecodeSetBit | Python/downlink_parser/galileo_has_message/phase_block.py:20-27 | a set signal bit adds one entry, read with the next set-bit counter, and keeps the decoding claim |
| GalileoHasPhase.SatelliteRecordsShape | Python/downlink_parser/galileo_has_message/phase_block.py:14-34 | a system's records decode exactly when the entries of every set satellite bit do; there is then one record per set bit, in mask order, record `k` carrying the bit's 1-based position as `sat` and the entries read with that record's key satellite number |
| GalileoHasPhase.SystemBlockDecodes | Python/downlink_parser/galileo_has_message/phase_block.py:8-38 | a system block decodes exactly when its three header fields are present, the GNSS is known and every entry of every set satellite bit is readable |
| GalileoHasPhase.SystemBlockContents | Python/downlink_parser/galileo_has_message/phase_block.py:8-38 | a decoded block has the table's GNSS name, one record per set satellite bit with `sat` its 1-based position, and in each record one entry per set signal bit that names the signal at that bit's position and holds the two bias fields of that satellite and signal counter |
| GalileoHasPhase.SignalEntriesErrorPersists | Python/downlink_parser/galileo_has_message/phase_block.py:20-28 | once a signal-mask prefix fails, the whole walk fails with the same error (the exception propagates) |
| GalileoHasPhase.SatelliteRecordsErrorPersists | Python/downlink_parser/galileo_has_message/phase_block.py:15-34 | once a satellite-mask prefix fails, the whole walk fails with the same error |
| GalileoHasPhase.SignalLoop | Python/downlink_parser/galileo_has_message/phase_block.py:17-28 | the inner loop, with its position counter `signal` and set-bit counter `signalCount`, computes exactly `SignalEntries`, including its error |
| GalileoHasPhase.SystemBlock | Python/downlink_parser/galileo_has_message/phase_block.py:8-38 | a decoded block had all three header fields, and its GNSS name is the table's name for the decoded identifier |
| GalileoHasPhase.PhaseBlock | Python/downlink_parser/galileo_has_message/phase_block.py:8-38 | the method computes exactly `SystemBlock(msg, sys, indexing)`, errors included: with `ByPosition` the decoder as written, with `BySetBit` the corrected one |
| GalileoHasPhase.BlocksShape | Python/downlink_parser/galileo_has_message/phase_block.py:44-45 | for either numbering, the blocks of systems `1..n` decode exactly when every one of them does; then there are `n` of them and block `i` is system `i + 1`'s |
| GalileoHasPhase.BlocksErrorPersists | Python/downlink_parser/galileo_has_message/phase_block.py:44-45 | once a system block fails, the remaining loop fails with the same error |
| GalileoHasPhase.PhaseBiasesShape | Python/downlink_parser/galileo_has_message/phase_block.py:40-50 | for either numbering (`ByPosition` is `phase` as written), `phase` succeeds exactly when the validity interval index and `n_sys` are present and every system `1..n_sys` is readable under that numbering; it then returns the validity interval index and `max(0, n_sys)` blocks, block `i` being system `i + 1`'s |
| GalileoHasPhase.Phase | Python/downlink_parser/galileo_has_message/phase_block.py:40-50 | the method computes exactly `PhaseBiasesOf(msg, indexing)`, errors included: with `ByPosition` the source's `phase`, with `BySetBit` the corrected one |
| GalileoHasPhase.ExpandShape | Python/downlink_parser/galileo_has_message/phase_block.py:57-58 | each bias index becomes exactly two fields: field `2t` its phase bias and field `2t + 1` its discontinuity indicator |
| GalileoHasPhase.ExpandAppend | Python/downlink_parser/galileo_has_message/phase_block.py:54-58 | expanding two index lists in turn is expanding their concatenation |
| GalileoHasPhase.ExpandKey | Python/downlink_parser/galileo_has_message/phase_block.py:57-58 | field `i` of an expansion is the phase-bias (even `i`) or discontinuity (odd `i`) field of index `i / 2` |
| GalileoHasPhase.ExpandKeysDistinct | Python/downlink_parser/galileo_has_message/phase_block.py:57-58 | an ascending index list expands to fields with pairwise distinct names |
| GalileoHasPhase.DeclaredKeysDistinct | Python/downlink_parser/galileo_has_message/phase_block.py:53-58 | the validity field followed by an ascending expansion declares no name twice |
| GalileoHasPhase.DeclaredFieldsAt | Python/downlink_parser/galileo_has_message/phase_block.py:53-58 | after the validity field, fields `1 + 2t` and `2 + 2t` are the two fields of index `t` |
| GalileoHasPhase.AscendingAppend | Python/downlink_parser/galileo_has_message/phase_block.py:54-56 | joining two ascending lists whose elements are ordered across gives an ascending list |
| GalileoHasPhase.SigIndicesEnumerate | Python/downlink_parser/galileo_has_message/phase_block.py:56 | a satellite's indices are its signals `1..n`, one each, in order (none when `n <= 0`) |
| GalileoHasPhase.SatIndicesCount | Python/downlink_parser/galileo_has_message/phase_block.py:55-56 | a system has `max(0, nSat) * max(0, nSig)` indices |
| GalileoHasPhase.SatIndicesMembers | Python/downlink_parser/galileo_has_message/phase_block.py:55-56 | a system's indices are exactly its satellites `1..nSat` crossed with the signals `1..nSig` |
| GalileoHasPhase.SigIndicesAscending | Python/downlink_parser/galileo_has_message/phase_block.py:56 | a satellite's indices are strictly ascending |
| GalileoHasPhase.SatIndicesAscending | Python/downlink_parser/galileo_has_message/phase_block.py:55-56 | a system's indices are strictly ascending (by satellite, then signal) |
| GalileoHasPhase.SystemsLayoutEnumerate | Python/downlink_parser/galileo_has_message/phase_block.py:54-56 | the layout completes exactly when every system `1..nsys` has its counts (an index error otherwise); its indices are strictly ascending by system, satellite, signal; when complete they are exactly the indices in the box and number `Σ satCounts[i]·sigCounts[i]` |
| GalileoHasPhase.SystemsLayoutStaysIncomplete | Python/downlink_parser/galileo_has_message/phase_block.py:54-56 | once the layout stops, laying out further systems adds nothing |
| GalileoHasPhase.SystemsLayoutStopsAtFirstGap | Python/downlink_parser/galileo_has_message/phase_block.py:54-56 | an incomplete layout holds exactly the indices of the systems before the first one that cannot be laid out |
| GalileoHasPhase.LayoutParamsShape | Python/downlink_parser/galileo_has_message/phase_block.py:52-58 | the declared fields are the 4-bit validity interval index first, then per index, in ascending order, the 11-bit phase bias immediately followed by the 2-bit discontinuity indicator; there are `1 + 2·Σ satCounts[i]·sigCounts[i]` of them when complete, and no name is declared twice |
| GalileoHasPhase.ParameterGenerator.constructor | Python/downlink_parser/galileo_has_message/phase_block.py:52 | a fresh generator has declared nothing |
| GalileoHasPhase.ParameterGenerator.AddParameterToDict | Python/downlink_parser/galileo_has_message/phase_block.py:53-58 | a declaration appends exactly one field, with its name, width and scaling, after those already declared |
| GalileoHasPhase.SigIndicesStep | Python/downlink_parser/galileo_has_message/phase_block.py:56-58 | declaring one more signal appends its phase-bias field and then its discontinuity field |
| GalileoHasPhase.DeclareSignals | Python/downlink_parser/galileo_has_message/phase_block.py:56-58 | the innermost loop appends exactly the two fields of each signal `1..n`, in order |
| GalileoHasPhase.DeclareSatellites | Python/downlink_parser/galileo_has_message/phase_block.py:55-58 | the middle loop fails, declaring nothing, exactly when there is a satellite to declare but no signal count for the system; otherwise it appends exactly the fields of satellites `1..satCount` |
| GalileoHasPhase.HandlePhaseBlock | Python/downlink_parser/galileo_has_message/phase_block.py:52-58 | the method appends exactly `LayoutParams(nsys, satCounts, sigCounts)` and reports completion exactly when the layout is complete; on an index error the fields declared before it stay declared |
| GalileoHasPhase.DeclaredKeysOfIndex | Python/downlink_parser/galileo_has_message/phase_block.py:57-58 | both bias fields of every laid-out index are declared |
| GalileoHasPhase.CorrectedReadsAreDeclared | Python/downlink_parser/galileo_has_message/phase_block.py:24-25 | when a system's declared counts are its masks' set-bit counts, every bias field the corrected decoder reads for that system is declared |
| GalileoHasPhase.DeclaredBlockDecodes | Python/downlink_parser/galileo_has_message/phase_block.py:8-58 | a message holding every declared field, the system's headers, a known GNSS and a signal mask of at most 16 bits, with counts matching the masks, makes the corrected block decode |
| GalileoHasPhase.IndexingsAgreeOnRecords | Python/downlink_parser/galileo_has_message/phase_block.py:14-34 | the two satellite numberings build the same records when the set satellite bits form a prefix of the mask |
| GalileoHasPhase.IndexingsAgree | Python/downlink_parser/galileo_has_message/phase_block.py:8-38 | the decoder as written and the corrected one agree on every system whose satellite mask's set bits form a prefix |
| GalileoHasPhase.FindingDeclaredKeys | Python/downlink_parser/galileo_has_message/phase_block.py:53-58 | `handlePhaseBlock(gen, 1, [1], [1])` declares exactly the validity field and the two bias fields of satellite 1, signal 1 |
| GalileoHasPhase.AsWrittenReadsUndeclaredKey | Python/downlink_parser/galileo_has_message/phase_block.py:14-34 | the decoder as written reads `pb sys1 sat2 sig1`, which is never declared, and fails on a message holding every declared field |
| GalileoHasPhase.CorrectedDecodesFindingMessage | Python/downlink_parser/galileo_has_message/phase_block.py:8-38 | the corrected decoder decodes the same message to one GPS record, `sat` 2, with one `L1C/A` entry |
| GalileoHasPhase.AsWrittenPhaseFails | Python/downlink_parser/galileo_has_message/phase_block.py:40-50 | on the same message, `phase` as written raises the `KeyError` for `pb sys1 sat2 sig1`, while the corrected `phase` returns validity index 0 and the one GPS block |

## Left out

- Command documentation strings, `documentation()`, `create`, `dynamicCast`, `shared_ptr` and `REGISTER_COMMAND_FACTORY`: these are registry and allocation plumbing with no logic to state. The command name is kept as the constant `name` each constructor sets.
- `parse_json.hpp` is not part of this model. The primitive, string-array and optional codecs in `Codec` assume the same guarded-cast shape as the visible `SimulatorSubState` codec. An absent optional is assumed to be a null node, and a null node is assumed to decode as absent.
- The `CommandBase` base class is not part of this model. `m_values` is taken to start as an empty object, and a lookup of a missing key is taken to read as a null node.
- The numeric values of `EXECUTE_IF_IDLE` and `EXECUTE_IF_SIMULATING` are not part of this model. They are taken to be the distinct single bits 1 and 2.
- Floating-point values (`Val`, the scale factor 0.01) carry no arithmetic. A `double` is an opaque 64-bit pattern.
- Codec.ParseDouble: an integer JSON node (such as `"Val": 3`) is assumed to fail the double codec, as an `IsDouble`-style test would. Only a floating-point number node is accepted. If `parse_json<double>` in fact tests `IsNumber`, the model rejects documents the code accepts.
- Strings are Dafny `string` values (sequences of characters), while `std::string` holds bytes. The commands only store and return their strings, so no encoding question arises.
- rapidjson's allocator arguments and memory management are left out, as are integer nodes other than "fits in 32 bits".
- In phase_block.py, field names are a datatype (`FieldKey`) instead of formatted strings. Distinct (system, satellite, signal) triples format to distinct names, so this loses no distinction.
- Bit strings are modelled as `seq<bool>`, and each field's `decimal` as an integer. The bit reader that fills the dictionary from the declared layout is not part of this model.
- The parameter generator passed to `handlePhaseBlock` is not part of this model. It is an append-only list of (name, bits, scaling) declarations; `utility.METER` is the unit `Meter`.
- Python exceptions are modelled as a `ParseError` result: `KeyError` for a missing dictionary entry or an unknown GNSS identifier, `IndexError` for a signal position past the table. In `handlePhaseBlock`, an `IndexError` is a `false` result, and the fields declared before it stay declared.
- The inner loops are methods of their own: `SignalLoop` for the signal walk of `phaseBlock`, and `DeclareSignals` and `DeclareSatellites` for the two inner loops of `handlePhaseBlock`. Each computes what the inlined loop computes.
- A Python negative index (`satCounts[-1]`) cannot arise, because `sys` starts at 1.
- The decoders `PhaseBlock` and `Phase` take the numbering of the bias keys' satellite as a parameter (`SatKeyIndexing`). `ByPosition` is the code as written and `BySetBit` the correction of the finding below. Every lemma about blocks holds for both, except the lemmas that relate the decoder to the declared layout, which are stated for `BySetBit`.

## Findings

| source | as written | input that shows it | evidently intended | confidence | as-written member | corrected member |
|---|---|---|---|---|---|---|
| Python/downlink_parser/galileo_has_message/phase_block.py:14-34 | The bias keys `pb sys{s} sat{svID} sig{c}` use `svID`, the 1-based position of the satellite's bit in the mask, counting clear bits too. `handlePhaseBlock` (lines 55-58) declares satellites `1..satCounts[sys-1]`, numbered by set bits only. | One GPS system, satellite mask `01`, signal mask `1`, laid out with `handlePhaseBlock(gen, 1, [1], [1])`. The decoder reads `pb sys1 sat2 sig1`, which was never declared, and raises `KeyError` on a message holding every declared field. | Number the bias keys by a counter over set satellite bits, as the signal index already does with `signalCount`. The record's `sat` stays the mask position. | medium, not executed | GalileoHasPhase.AsWrittenReadsUndeclaredKey | GalileoHasPhase.DeclaredBlockDecodes |
