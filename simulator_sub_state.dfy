/**
  The simulator sub-state enum and its JSON codec (SimulatorSubState.h).
  The enum is `enum class SimulatorSubState : int`, so a value of the C++ type
  is any 32-bit int; the fifteen enumerators name the ordinals 0..14 in
  declaration order. The codec's `is_valid` only asks for an integer node, and
  `parse` casts that integer to the enum without a range check.
*/
module SimulatorSubStates {
  import opened Wrappers
  import opened Json
  import Codec

  datatype SimulatorSubState =
    | SubStateNone
    | Idle_ConfigNotValid
    | Idle_ConfigValid
    | Started_InitHardware
    | Started_Streaming
    | Started_SyncInit
    | Started_SlaveSync
    | Started_Armed
    | Started_SyncStartTime
    | Error
    | Started_HILSync
    | Started_SyncPPSReset
    | Started_SyncStart
    | Started_WFSlaveInit
    | Started_WFMasterInit

  /** A value of the C++ enum type: any int, named or not. */
  type SubStateValue = int32

  const EnumeratorCount: nat := 15

  /** The ordinal the enumerator takes from its place in the declaration. */
  function Ordinal(s: SimulatorSubState): (n: SubStateValue)
    ensures 0 <= n < EnumeratorCount as int32
  {
    match s
    case SubStateNone => 0
    case Idle_ConfigNotValid => 1
    case Idle_ConfigValid => 2
    case Started_InitHardware => 3
    case Started_Streaming => 4
    case Started_SyncInit => 5
    case Started_SlaveSync => 6
    case Started_Armed => 7
    case Started_SyncStartTime => 8
    case Error => 9
    case Started_HILSync => 10
    case Started_SyncPPSReset => 11
    case Started_SyncStart => 12
    case Started_WFSlaveInit => 13
    case Started_WFMasterInit => 14
  }

  /** The enumerator with ordinal `n`, if the declaration names one. */
  function Named(n: SubStateValue): (r: Option<SimulatorSubState>)
    ensures r.Some? <==> 0 <= n < EnumeratorCount as int32
    ensures r.Some? ==> Ordinal(r.value) == n
  {
    match n
    case 0 => Some(SubStateNone)
    case 1 => Some(Idle_ConfigNotValid)
    case 2 => Some(Idle_ConfigValid)
    case 3 => Some(Started_InitHardware)
    case 4 => Some(Started_Streaming)
    case 5 => Some(Started_SyncInit)
    case 6 => Some(Started_SlaveSync)
    case 7 => Some(Started_Armed)
    case 8 => Some(Started_SyncStartTime)
    case 9 => Some(Error)
    case 10 => Some(Started_HILSync)
    case 11 => Some(Started_SyncPPSReset)
    case 12 => Some(Started_SyncStart)
    case 13 => Some(Started_WFSlaveInit)
    case 14 => Some(Started_WFMasterInit)
    case _ => None
  }

  /** `parse_json<SimulatorSubState>::is_valid`: an integer node, nothing more. */
  predicate IsValid(v: Value) {
    IsInt(v)
  }

  /** `parse`: throws on a node `IsValid` rejects, else casts the integer. */
  function Parse(v: Value): (r: Codec.Decoded<SubStateValue>)
    ensures r.Ok? <==> IsValid(v)
    ensures r.Ok? ==> v == Int(r.value as int)
  {
    if !IsValid(v) then Err(Codec.UnexpectedValue) else Ok(v.i as int32)
  }

  /** `format`: the integer node of the value's ordinal. */
  function Format(s: SubStateValue): (v: Value)
    ensures IsValid(v)
    ensures v.Int? && v.i == s as int
  {
    Int(s as int)
  }

  /** Ordinals follow the declaration order, from SubStateNone = 0 to Started_WFMasterInit = 14. */
  lemma OrdinalsFollowDeclarationOrder()
    ensures Ordinal(SubStateNone) == 0 && Ordinal(Idle_ConfigNotValid) == 1
    ensures Ordinal(Idle_ConfigValid) == 2 && Ordinal(Started_InitHardware) == 3
    ensures Ordinal(Started_Streaming) == 4 && Ordinal(Error) == 9
    ensures Ordinal(Started_WFMasterInit) == 14
    ensures forall s, t :: Ordinal(s) == Ordinal(t) ==> s == t
  {
    forall s, t | Ordinal(s) == Ordinal(t) ensures s == t {
      assert Named(Ordinal(s)) == Some(s) by { NamedOrdinal(s); }
      assert Named(Ordinal(t)) == Some(t) by { NamedOrdinal(t); }
    }
  }

  lemma NamedOrdinal(s: SimulatorSubState)
    ensures Named(Ordinal(s)) == Some(s)
  {
  }

  /** `is_valid(format(s))` for every value, and `parse(format(s)) == s`, named or not. */
  lemma RoundTrip(s: SubStateValue)
    ensures IsValid(Format(s))
    ensures Parse(Format(s)) == Ok(s)
  {
  }

  /** Every enumerator survives format then parse, and is recognised again by name. */
  lemma EnumeratorRoundTrip(s: SimulatorSubState)
    ensures Parse(Format(Ordinal(s))).Ok?
    ensures Named(Parse(Format(Ordinal(s))).value) == Some(s)
  {
    NamedOrdinal(s);
  }

  /** `format(parse(v))` gives back the node for every node `is_valid` accepts. */
  lemma FormatParse(v: Value)
    requires IsValid(v)
    ensures Format(Parse(v).value) == v
  {
  }

  /** The codec agrees with the plain int codec: same accepted nodes, same decoded integer. */
  lemma AgreesWithIntCodec(v: Value)
    ensures IsValid(v) <==> Codec.IntValid(v)
    ensures Parse(v) == Codec.ParseInt(v)
  {
  }

  /** No range check: ordinal 99 names no enumerator, yet `parse` accepts it. */
  lemma OutOfRangeOrdinalAccepted()
    ensures IsValid(Int(99)) && Parse(Int(99)) == Ok(99)
    ensures Named(99).None?
  {
  }

  /** A node that is not a 32-bit integer makes `parse` throw. */
  lemma NonIntegerRejected(s: string, big: int)
    requires big >= 0x8000_0000
    ensures Parse(Str(s)).Err? && Parse(Null).Err? && Parse(Int(big)).Err?
  {
  }
}
