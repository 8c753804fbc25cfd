/**
 * The phase-bias block of the Galileo HAS message body (section 5.2.6 of the
 * Galileo HAS Signal-In-Space ICD), as the downlink parser decodes it.
 *
 * The parser first declares a field layout (`HandlePhaseBlock`); the bit reader
 * then fills a dictionary from field names to decoded fields, and `Phase` walks
 * that dictionary, one block per GNSS, emitting a record per set bit of the
 * satellite mask and, inside it, an entry per set bit of the signal mask.
 */
module GalileoHasPhase {
  import opened Wrappers

  // ---------------------------------------------------------------------------
  // The decoded message
  // ---------------------------------------------------------------------------

  /**
   * The names of the dictionary entries the block uses. Each constructor stands
   * for one formatted name ("gnss_id 1", "pb sys1 sat2 sig3", ...); distinct
   * constructor values render to distinct names.
   */
  datatype FieldKey =
    | GnssIdKey(sys: int)
    | SatelliteMaskKey(sys: int)
    | SignalMaskKey(sys: int)
    | PhaseBiasKey(sys: int, sat: int, sig: int)
    | DiscontinuityKey(sys: int, sat: int, sig: int)
    | ValidityIntervalKey
    | NSysKey

  /** A decoded field: its value as an integer and its raw bits. */
  datatype Field = Field(decimal: int, binary: seq<bool>)

  type Message = map<FieldKey, Field>

  /** Why decoding stopped: a missing dictionary entry, an unknown GNSS identifier, an index past a signal table. */
  datatype ParseError =
    | KeyError(key: FieldKey)
    | UnknownGnss(gnssId: int)
    | SignalIndexError(index: int)

  datatype SignalBias = SignalBias(sig: string, phaseBias: int, discontinuityIndicator: int)
  datatype SatelliteBiases = SatelliteBiases(sat: int, phaseBiasPerSig: seq<SignalBias>)
  datatype SystemBiases = SystemBiases(gnssId: string, phaseBiasesPerSat: seq<SatelliteBiases>)
  datatype PhaseBiases = PhaseBiases(validityIntervalIndex: int, phaseBiasesPerSys: seq<SystemBiases>)

  // ---------------------------------------------------------------------------
  // The GNSS and signal tables
  // ---------------------------------------------------------------------------

  const GpsId := 0
  const GalileoId := 2

  const GpsSignals: seq<string> := [
    "L1C/A", "Reserved", "Reserved", "L1C(D)", "L1C(P)", "L1C(D+P)", "L2 CM", "L2 CL",
    "L2 CM+CL", "L2 P", "Reserved", "L5 I", "L5 Q", "L5 I + L5 Q", "Reserved", "Reserved"]

  const GalileoSignals: seq<string> := [
    "E1-B I/NAV OS", "E1-C", "E1-B + E1-C", "E5a-I F/NAV OS", "E5a-Q", "E5a-I+E5a-Q",
    "E5b-I I/NAV OS", "E5b-Q", "E5b-I+E5b-Q", "E5-I", "E5-Q", "E5-I + E5-Q",
    "E6-B C/NAV HAS", "E6-C", "E6-B + E6-C", "Reserved"]

  /** `GNSS_ID[gnssId]`, or nothing when the identifier is not in the table. */
  function GnssName(gnssId: int): (name: Option<string>)
    ensures name.Some? <==> gnssId == GpsId || gnssId == GalileoId
  {
    if gnssId == GpsId then Some("GPS")
    else if gnssId == GalileoId then Some("GALILEO")
    else None
  }

  /** `SIGNAL_MASK[gnssId]`: sixteen signal names per known GNSS, the same GNSS as `GnssName` knows. */
  function SignalTable(gnssId: int): (table: Option<seq<string>>)
    ensures table.Some? <==> GnssName(gnssId).Some?
    ensures table.Some? ==> |table.value| == 16
  {
    if gnssId == GpsId then Some(GpsSignals)
    else if gnssId == GalileoId then Some(GalileoSignals)
    else None
  }

  // ---------------------------------------------------------------------------
  // Masks
  // ---------------------------------------------------------------------------

  /** The 0-based positions of the set bits of a mask, in mask order. */
  function SetPositions(mask: seq<bool>): seq<nat>
  {
    if mask == [] then []
    else SetPositions(mask[..|mask| - 1]) + (if mask[|mask| - 1] then [|mask| - 1] else [])
  }

  /** Every position listed is a set bit of the mask. */
  lemma {:induction false} SetPositionsAreSet(mask: seq<bool>)
    ensures forall i :: 0 <= i < |SetPositions(mask)| ==> SetPositions(mask)[i] < |mask| && mask[SetPositions(mask)[i]]
  {
    if mask != [] {
      var init := mask[..|mask| - 1];
      SetPositionsAreSet(init);
      var ps := SetPositions(mask);
      forall i | 0 <= i < |SetPositions(init)|
        ensures ps[i] < |mask| - 1 && mask[ps[i]]
      {
        assert ps[i] == SetPositions(init)[i];
        assert init[ps[i]] == mask[ps[i]];
      }
    }
  }

  /** The positions are listed in strictly increasing order. */
  lemma {:induction false} SetPositionsIncrease(mask: seq<bool>)
    ensures forall i, j :: 0 <= i < j < |SetPositions(mask)| ==> SetPositions(mask)[i] < SetPositions(mask)[j]
  {
    if mask != [] {
      var init := mask[..|mask| - 1];
      SetPositionsIncrease(init);
      SetPositionsAreSet(init);
      var ps := SetPositions(mask);
      forall i, j | 0 <= i < j < |ps|
        ensures ps[i] < ps[j]
      {
        assert ps[i] == SetPositions(init)[i];
        if j < |SetPositions(init)| {
          assert ps[j] == SetPositions(init)[j];
        }
      }
    }
  }

  /** Every set bit of the mask is listed. */
  lemma {:induction false} SetPositionsListAll(mask: seq<bool>)
    ensures forall p :: 0 <= p < |mask| && mask[p] ==> p in SetPositions(mask)
  {
    if mask != [] {
      var init := mask[..|mask| - 1];
      SetPositionsListAll(init);
      var ps := SetPositions(mask);
      forall p | 0 <= p < |mask| && mask[p]
        ensures p in ps
      {
        if p < |mask| - 1 {
          assert init[p] == mask[p];
          var i :| 0 <= i < |SetPositions(init)| && SetPositions(init)[i] == p;
          assert ps[i] == p;
        } else {
          assert ps[|ps| - 1] == p;
        }
      }
    }
  }

  /** The positions listed are exactly the set bits, each once, in increasing order. */
  lemma SetPositionsAreTheSetBits(mask: seq<bool>)
    ensures forall i :: 0 <= i < |SetPositions(mask)| ==> SetPositions(mask)[i] < |mask| && mask[SetPositions(mask)[i]]
    ensures forall i, j :: 0 <= i < j < |SetPositions(mask)| ==> SetPositions(mask)[i] < SetPositions(mask)[j]
    ensures forall p :: 0 <= p < |mask| && mask[p] ==> p in SetPositions(mask)
  {
    SetPositionsAreSet(mask);
    SetPositionsIncrease(mask);
    SetPositionsListAll(mask);
  }

  /** Appending a bit to a mask appends its position to the list exactly when the bit is set. */
  lemma SetPositionsSnoc(mask: seq<bool>, bit: bool)
    ensures SetPositions(mask + [bit]) == SetPositions(mask) + (if bit then [|mask|] else [])
  {
    assert (mask + [bit])[..|mask|] == mask;
  }

  // ---------------------------------------------------------------------------
  // Decoding one GNSS block: the specification
  // ---------------------------------------------------------------------------

  /**
   * Which satellite index a bias key carries. The decoder as written uses the
   * 1-based position of the satellite's bit in the mask; the layout declares
   * keys numbered by a counter over set bits only.
   */
  datatype SatKeyIndexing = ByPosition | BySetBit

  /**
   * One signal entry, looked up in the order its dictionary display evaluates:
   * the signal table, the name at `signal - 1`, then the two bias fields.
   */
  function SignalEntry(msg: Message, sys: int, gnssId: int, keySat: int, signal: nat, signalCount: int)
    : Result<SignalBias, ParseError>
    requires signal >= 1
  {
    match SignalTable(gnssId)
    case None => Err(UnknownGnss(gnssId))
    case Some(table) =>
      if signal - 1 >= |table| then Err(SignalIndexError(signal - 1))
      else if PhaseBiasKey(sys, keySat, signalCount) !in msg then Err(KeyError(PhaseBiasKey(sys, keySat, signalCount)))
      else if DiscontinuityKey(sys, keySat, signalCount) !in msg then Err(KeyError(DiscontinuityKey(sys, keySat, signalCount)))
      else Ok(SignalBias(table[signal - 1],
                         msg[PhaseBiasKey(sys, keySat, signalCount)].decimal,
                         msg[DiscontinuityKey(sys, keySat, signalCount)].decimal))
  }

  /** The entries of one satellite after walking the signal-mask prefix `mask`. */
  function SignalEntries(msg: Message, sys: int, gnssId: int, keySat: int, mask: seq<bool>)
    : Result<seq<SignalBias>, ParseError>
  {
    if mask == [] then Ok([])
    else
      match SignalEntries(msg, sys, gnssId, keySat, mask[..|mask| - 1])
      case Err(e) => Err(e)
      case Ok(prev) =>
        if !mask[|mask| - 1] then Ok(prev)
        else
          match SignalEntry(msg, sys, gnssId, keySat, |mask|, |prev| + 1)
          case Err(e) => Err(e)
          case Ok(entry) => Ok(prev + [entry])
  }

  /** The satellite index of the bias keys of the `k`-th record, whose bit is at position `p`. */
  function KeySat(indexing: SatKeyIndexing, k: nat, p: nat): int {
    match indexing
    case ByPosition => p + 1
    case BySetBit => k + 1
  }

  /** The records of one system after walking the satellite-mask prefix `mask`. */
  function SatelliteRecords(msg: Message, sys: int, gnssId: int, sigMask: seq<bool>, indexing: SatKeyIndexing, mask: seq<bool>)
    : Result<seq<SatelliteBiases>, ParseError>
  {
    if mask == [] then Ok([])
    else
      match SatelliteRecords(msg, sys, gnssId, sigMask, indexing, mask[..|mask| - 1])
      case Err(e) => Err(e)
      case Ok(prev) =>
        if !mask[|mask| - 1] then Ok(prev)
        else
          match SignalEntries(msg, sys, gnssId, KeySat(indexing, |prev|, |mask| - 1), sigMask)
          case Err(e) => Err(e)
          case Ok(entries) => Ok(prev + [SatelliteBiases(|mask|, entries)])
  }

  /** The block of system `sys`: its three header fields, its records, then the GNSS name. */
  function SystemBlock(msg: Message, sys: int, indexing: SatKeyIndexing): (r: Result<SystemBiases, ParseError>)
    ensures r.Ok? ==>
      && GnssIdKey(sys) in msg && SatelliteMaskKey(sys) in msg && SignalMaskKey(sys) in msg
      && GnssName(msg[GnssIdKey(sys)].decimal) == Some(r.value.gnssId)
  {
    if GnssIdKey(sys) !in msg then Err(KeyError(GnssIdKey(sys)))
    else if SatelliteMaskKey(sys) !in msg then Err(KeyError(SatelliteMaskKey(sys)))
    else if SignalMaskKey(sys) !in msg then Err(KeyError(SignalMaskKey(sys)))
    else
      var gnssId := msg[GnssIdKey(sys)].decimal;
      match SatelliteRecords(msg, sys, gnssId, msg[SignalMaskKey(sys)].binary, indexing, msg[SatelliteMaskKey(sys)].binary)
      case Err(e) => Err(e)
      case Ok(records) =>
        match GnssName(gnssId)
        case None => Err(UnknownGnss(gnssId))
        case Some(name) => Ok(SystemBiases(name, records))
  }

  // ---------------------------------------------------------------------------
  // Decoding one GNSS block: what the specification means
  // ---------------------------------------------------------------------------

  /** Entry `c` (1-based) of a satellite, for the signal bit at position `p`, can be read. */
  predicate EntryReadable(msg: Message, sys: int, gnssId: int, keySat: int, p: nat, c: int) {
    && SignalTable(gnssId).Some?
    && p < 16
    && PhaseBiasKey(sys, keySat, c) in msg
    && DiscontinuityKey(sys, keySat, c) in msg
  }

  /** An entry decodes exactly when it is readable; it names the signal at `signal - 1` and reads the two bias fields. */
  lemma SignalEntryMeaning(msg: Message, sys: int, gnssId: int, keySat: int, signal: nat, signalCount: int)
    requires signal >= 1
    ensures SignalEntry(msg, sys, gnssId, keySat, signal, signalCount).Ok? <==>
      EntryReadable(msg, sys, gnssId, keySat, signal - 1, signalCount)
    ensures SignalEntry(msg, sys, gnssId, keySat, signal, signalCount).Ok? ==>
      && SignalTable(gnssId).Some? && signal - 1 < 16
      && PhaseBiasKey(sys, keySat, signalCount) in msg && DiscontinuityKey(sys, keySat, signalCount) in msg
      && SignalEntry(msg, sys, gnssId, keySat, signal, signalCount).value == SignalBias(
           SignalTable(gnssId).value[signal - 1],
           msg[PhaseBiasKey(sys, keySat, signalCount)].decimal,
           msg[DiscontinuityKey(sys, keySat, signalCount)].decimal)
  {
  }

  /** Every set signal bit of `mask` has a decodable entry, numbered by its rank among the set bits. */
  predicate AllEntriesDecode(msg: Message, sys: int, gnssId: int, keySat: int, mask: seq<bool>) {
    forall j :: 0 <= j < |SetPositions(mask)| ==> SignalEntry(msg, sys, gnssId, keySat, SetPositions(mask)[j] + 1, j + 1).Ok?
  }

  /** What `SignalEntriesDecode` states about one mask. */
  predicate EntriesDecodeClaim(msg: Message, sys: int, gnssId: int, keySat: int, mask: seq<bool>) {
    && (SignalEntries(msg, sys, gnssId, keySat, mask).Ok? <==> AllEntriesDecode(msg, sys, gnssId, keySat, mask))
    && (SignalEntries(msg, sys, gnssId, keySat, mask).Ok? ==> |SignalEntries(msg, sys, gnssId, keySat, mask).value| == |SetPositions(mask)|)
  }

  /** The claim carries over to a mask extended by a clear bit. */
  lemma EntriesDecodeClearBit(msg: Message, sys: int, gnssId: int, keySat: int, mask: seq<bool>)
    requires mask != [] && !mask[|mask| - 1]
    requires EntriesDecodeClaim(msg, sys, gnssId, keySat, mask[..|mask| - 1])
    ensures EntriesDecodeClaim(msg, sys, gnssId, keySat, mask)
  {
    var init := mask[..|mask| - 1];
    assert SetPositions(mask) == SetPositions(init) + [];
    assert SetPositions(mask) == SetPositions(init);
    assert SignalEntries(msg, sys, gnssId, keySat, mask) == SignalEntries(msg, sys, gnssId, keySat, init);
  }

  /** The claim carries over to a mask extended by a set bit. */
  lemma EntriesDecodeSetBit(msg: Message, sys: int, gnssId: int, keySat: int, mask: seq<bool>)
    requires mask != [] && mask[|mask| - 1]
    requires EntriesDecodeClaim(msg, sys, gnssId, keySat, mask[..|mask| - 1])
    ensures EntriesDecodeClaim(msg, sys, gnssId, keySat, mask)
  {
    var init := mask[..|mask| - 1];
    var ps := SetPositions(mask);
    var pi := SetPositions(init);
    assert ps == pi + [|mask| - 1];
    var r := SignalEntries(msg, sys, gnssId, keySat, init);
    var full := SignalEntries(msg, sys, gnssId, keySat, mask);
    if r.Err? {
      assert full.Err?;
      assert !AllEntriesDecode(msg, sys, gnssId, keySat, init);
      var j :| 0 <= j < |pi| && !SignalEntry(msg, sys, gnssId, keySat, pi[j] + 1, j + 1).Ok?;
      assert ps[j] == pi[j];
    } else {
      var e := SignalEntry(msg, sys, gnssId, keySat, |mask|, |pi| + 1);
      assert full.Ok? <==> e.Ok?;
      assert AllEntriesDecode(msg, sys, gnssId, keySat, mask) <==> AllEntriesDecode(msg, sys, gnssId, keySat, init) && e.Ok? by {
        forall j | 0 <= j < |pi|
          ensures ps[j] == pi[j]
        {
        }
        assert ps[|pi|] + 1 == |mask|;
      }
    }
  }

  /** A satellite's entries decode exactly when the entry of every set signal bit does. */
  lemma {:induction false} SignalEntriesDecode(msg: Message, sys: int, gnssId: int, keySat: int, mask: seq<bool>)
    ensures SignalEntries(msg, sys, gnssId, keySat, mask).Ok? ==>
      forall j :: 0 <= j < |SetPositions(mask)| ==> SignalEntry(msg, sys, gnssId, keySat, SetPositions(mask)[j] + 1, j + 1).Ok?
    ensures (forall j :: 0 <= j < |SetPositions(mask)| ==> SignalEntry(msg, sys, gnssId, keySat, SetPositions(mask)[j] + 1, j + 1).Ok?) ==>
      SignalEntries(msg, sys, gnssId, keySat, mask).Ok?
    ensures SignalEntries(msg, sys, gnssId, keySat, mask).Ok? ==>
      |SignalEntries(msg, sys, gnssId, keySat, mask).value| == |SetPositions(mask)|
  {
    EntriesDecodeHolds(msg, sys, gnssId, keySat, mask);
  }

  lemma {:induction false} EntriesDecodeHolds(msg: Message, sys: int, gnssId: int, keySat: int, mask: seq<bool>)
    ensures EntriesDecodeClaim(msg, sys, gnssId, keySat, mask)
  {
    if mask != [] {
      EntriesDecodeHolds(msg, sys, gnssId, keySat, mask[..|mask| - 1]);
      if mask[|mask| - 1] {
        EntriesDecodeSetBit(msg, sys, gnssId, keySat, mask);
      } else {
        EntriesDecodeClearBit(msg, sys, gnssId, keySat, mask);
      }
    }
  }

  /** Entry `j` of a decoded satellite is the entry for the `j`-th set bit's position, read with the signal counter `j + 1`. */
  lemma {:induction false} SignalEntriesValues(msg: Message, sys: int, gnssId: int, keySat: int, mask: seq<bool>)
    requires SignalEntries(msg, sys, gnssId, keySat, mask).Ok?
    ensures |SignalEntries(msg, sys, gnssId, keySat, mask).value| == |SetPositions(mask)|
    ensures forall j :: 0 <= j < |SetPositions(mask)| ==>
      SignalEntry(msg, sys, gnssId, keySat, SetPositions(mask)[j] + 1, j + 1) ==
        Ok(SignalEntries(msg, sys, gnssId, keySat, mask).value[j])
  {
    SignalEntriesDecode(msg, sys, gnssId, keySat, mask);
    if mask != [] {
      var init := mask[..|mask| - 1];
      var r := SignalEntries(msg, sys, gnssId, keySat, init);
      assert r.Ok?;
      SignalEntriesValues(msg, sys, gnssId, keySat, init);
      var ps := SetPositions(mask);
      var pi := SetPositions(init);
      assert ps == pi + (if mask[|mask| - 1] then [|mask| - 1] else []);
      if mask[|mask| - 1] {
        var entries := SignalEntries(msg, sys, gnssId, keySat, mask).value;
        var e := SignalEntry(msg, sys, gnssId, keySat, |mask|, |r.value| + 1);
        assert entries == r.value + [e.value];
        forall j | 0 <= j < |ps|
          ensures entries[j] == SignalEntry(msg, sys, gnssId, keySat, ps[j] + 1, j + 1).value
        {
          if j < |pi| {
            assert entries[j] == r.value[j] && ps[j] == pi[j];
          }
        }
      }
    }
  }

  /**
   * A satellite's entries: one per set signal bit, in mask order; entry `j` is the
   * entry for its bit's position read with the signal counter `j + 1`.
   */
  lemma SignalEntriesShape(msg: Message, sys: int, gnssId: int, keySat: int, mask: seq<bool>)
    ensures SignalEntries(msg, sys, gnssId, keySat, mask).Ok? ==>
      forall j :: 0 <= j < |SetPositions(mask)| ==> SignalEntry(msg, sys, gnssId, keySat, SetPositions(mask)[j] + 1, j + 1).Ok?
    ensures (forall j :: 0 <= j < |SetPositions(mask)| ==> SignalEntry(msg, sys, gnssId, keySat, SetPositions(mask)[j] + 1, j + 1).Ok?) ==>
      SignalEntries(msg, sys, gnssId, keySat, mask).Ok?
    ensures SignalEntries(msg, sys, gnssId, keySat, mask).Ok? ==>
      && |SignalEntries(msg, sys, gnssId, keySat, mask).value| == |SetPositions(mask)|
      && forall j :: 0 <= j < |SetPositions(mask)| ==>
           SignalEntries(msg, sys, gnssId, keySat, mask).value[j] ==
             SignalEntry(msg, sys, gnssId, keySat, SetPositions(mask)[j] + 1, j + 1).value
  {
    SignalEntriesDecode(msg, sys, gnssId, keySat, mask);
    if SignalEntries(msg, sys, gnssId, keySat, mask).Ok? {
      SignalEntriesValues(msg, sys, gnssId, keySat, mask);
    }
  }

  /**
   * A system's records: one per set satellite bit, in mask order; record `k` carries
   * its bit's 1-based position and the entries read with the bias keys of `KeySat`.
   */
  lemma {:induction false} SatelliteRecordsShape(msg: Message, sys: int, gnssId: int, sigMask: seq<bool>, indexing: SatKeyIndexing, mask: seq<bool>)
    ensures SatelliteRecords(msg, sys, gnssId, sigMask, indexing, mask).Ok? <==>
      forall k :: 0 <= k < |SetPositions(mask)| ==>
        SignalEntries(msg, sys, gnssId, KeySat(indexing, k, SetPositions(mask)[k]), sigMask).Ok?
    ensures SatelliteRecords(msg, sys, gnssId, sigMask, indexing, mask).Ok? ==>
      var records := SatelliteRecords(msg, sys, gnssId, sigMask, indexing, mask).value;
      && |records| == |SetPositions(mask)|
      && forall k :: 0 <= k < |records| ==>
           records[k] == SatelliteBiases(SetPositions(mask)[k] + 1,
             SignalEntries(msg, sys, gnssId, KeySat(indexing, k, SetPositions(mask)[k]), sigMask).value)
  {
    if mask != [] {
      var init := mask[..|mask| - 1];
      SatelliteRecordsShape(msg, sys, gnssId, sigMask, indexing, init);
      var ps := SetPositions(mask);
      var pi := SetPositions(init);
      assert ps == pi + (if mask[|mask| - 1] then [|mask| - 1] else []);
      var r := SatelliteRecords(msg, sys, gnssId, sigMask, indexing, init);
      if r.Err? {
        var k :| 0 <= k < |pi| && !SignalEntries(msg, sys, gnssId, KeySat(indexing, k, pi[k]), sigMask).Ok?;
        assert ps[k] == pi[k];
      } else if mask[|mask| - 1] {
        assert ps[|pi|] == |mask| - 1;
        var e := SignalEntries(msg, sys, gnssId, KeySat(indexing, |r.value|, |mask| - 1), sigMask);
        if e.Ok? {
          var records := r.value + [SatelliteBiases(|mask|, e.value)];
          forall k | 0 <= k < |records|
            ensures records[k] == SatelliteBiases(ps[k] + 1,
              SignalEntries(msg, sys, gnssId, KeySat(indexing, k, ps[k]), sigMask).value)
          {
            if k < |pi| {
              assert records[k] == r.value[k] && ps[k] == pi[k];
            }
          }
        }
      }
    }
  }

  /** Everything system `sys` needs in the message for its block to decode. */
  predicate BlockReadable(msg: Message, sys: int, indexing: SatKeyIndexing) {
    && GnssIdKey(sys) in msg
    && SatelliteMaskKey(sys) in msg
    && SignalMaskKey(sys) in msg
    && var gnssId := msg[GnssIdKey(sys)].decimal;
       var sats := SetPositions(msg[SatelliteMaskKey(sys)].binary);
       var sigs := SetPositions(msg[SignalMaskKey(sys)].binary);
       && GnssName(gnssId).Some?
       && forall k, j :: 0 <= k < |sats| && 0 <= j < |sigs| ==>
            EntryReadable(msg, sys, gnssId, KeySat(indexing, k, sats[k]), sigs[j], j + 1)
  }

  /** A block decodes exactly when everything it reads is in the message and the GNSS is known. */
  lemma SystemBlockDecodes(msg: Message, sys: int, indexing: SatKeyIndexing)
    ensures SystemBlock(msg, sys, indexing).Ok? <==> BlockReadable(msg, sys, indexing)
  {
    if GnssIdKey(sys) in msg && SatelliteMaskKey(sys) in msg && SignalMaskKey(sys) in msg {
      var gnssId := msg[GnssIdKey(sys)].decimal;
      var satMask := msg[SatelliteMaskKey(sys)].binary;
      var sigMask := msg[SignalMaskKey(sys)].binary;
      var sats := SetPositions(satMask);
      var sigs := SetPositions(sigMask);
      var r := SatelliteRecords(msg, sys, gnssId, sigMask, indexing, satMask);
      SatelliteRecordsShape(msg, sys, gnssId, sigMask, indexing, satMask);
      if BlockReadable(msg, sys, indexing) {
        forall k | 0 <= k < |sats|
          ensures SignalEntries(msg, sys, gnssId, KeySat(indexing, k, sats[k]), sigMask).Ok?
        {
          var keySat := KeySat(indexing, k, sats[k]);
          forall j | 0 <= j < |sigs|
            ensures SignalEntry(msg, sys, gnssId, keySat, sigs[j] + 1, j + 1).Ok?
          {
            assert EntryReadable(msg, sys, gnssId, keySat, sigs[j], j + 1);
            SignalEntryMeaning(msg, sys, gnssId, keySat, sigs[j] + 1, j + 1);
          }
          SignalEntriesShape(msg, sys, gnssId, keySat, sigMask);
        }
        assert r.Ok?;
      }
      if SystemBlock(msg, sys, indexing).Ok? {
        assert r.Ok? && GnssName(gnssId).Some?;
        forall k, j | 0 <= k < |sats| && 0 <= j < |sigs|
          ensures EntryReadable(msg, sys, gnssId, KeySat(indexing, k, sats[k]), sigs[j], j + 1)
        {
          var keySat := KeySat(indexing, k, sats[k]);
          assert SignalEntries(msg, sys, gnssId, keySat, sigMask).Ok?;
          SignalEntriesShape(msg, sys, gnssId, keySat, sigMask);
          SignalEntryMeaning(msg, sys, gnssId, keySat, sigs[j] + 1, j + 1);
        }
      }
    }
  }

  /**
   * A decoded block holds one record per set satellite bit, numbered by the bit's
   * 1-based position, each with one entry per set signal bit, naming the signal at
   * that bit's position and reading the bias fields of the satellite key `KeySat`
   * and the signal counter `j + 1`; its GNSS name is the table's.
   */
  lemma SystemBlockContents(msg: Message, sys: int, indexing: SatKeyIndexing)
    requires SystemBlock(msg, sys, indexing).Ok?
    ensures GnssIdKey(sys) in msg && SatelliteMaskKey(sys) in msg && SignalMaskKey(sys) in msg
    ensures
      var block := SystemBlock(msg, sys, indexing).value;
      var gnssId := msg[GnssIdKey(sys)].decimal;
      var sats := SetPositions(msg[SatelliteMaskKey(sys)].binary);
      var sigs := SetPositions(msg[SignalMaskKey(sys)].binary);
      && GnssName(gnssId).Some? && SignalTable(gnssId).Some?
      && block.gnssId == GnssName(gnssId).value
      && |block.phaseBiasesPerSat| == |sats|
      && (forall k :: 0 <= k < |sats| ==>
            && block.phaseBiasesPerSat[k].sat == sats[k] + 1
            && |block.phaseBiasesPerSat[k].phaseBiasPerSig| == |sigs|)
      && forall k, j :: 0 <= k < |sats| && 0 <= j < |sigs| ==>
           && EntryReadable(msg, sys, gnssId, KeySat(indexing, k, sats[k]), sigs[j], j + 1)
           && block.phaseBiasesPerSat[k].phaseBiasPerSig[j] == SignalBias(
                SignalTable(gnssId).value[sigs[j]],
                msg[PhaseBiasKey(sys, KeySat(indexing, k, sats[k]), j + 1)].decimal,
                msg[DiscontinuityKey(sys, KeySat(indexing, k, sats[k]), j + 1)].decimal)
  {
    var gnssId := msg[GnssIdKey(sys)].decimal;
    var satMask := msg[SatelliteMaskKey(sys)].binary;
    var sigMask := msg[SignalMaskKey(sys)].binary;
    var sats := SetPositions(satMask);
    var sigs := SetPositions(sigMask);
    var records := SatelliteRecords(msg, sys, gnssId, sigMask, indexing, satMask).value;
    SatelliteRecordsShape(msg, sys, gnssId, sigMask, indexing, satMask);
    forall k | 0 <= k < |sats|
      ensures |records[k].phaseBiasPerSig| == |sigs|
    {
      SignalEntriesShape(msg, sys, gnssId, KeySat(indexing, k, sats[k]), sigMask);
    }
    var block := SystemBlock(msg, sys, indexing).value;
    assert block.phaseBiasesPerSat == records;
    forall k, j | 0 <= k < |sats| && 0 <= j < |sigs|
      ensures
        && EntryReadable(msg, sys, gnssId, KeySat(indexing, k, sats[k]), sigs[j], j + 1)
        && block.phaseBiasesPerSat[k].phaseBiasPerSig[j] == SignalBias(
             SignalTable(gnssId).value[sigs[j]],
             msg[PhaseBiasKey(sys, KeySat(indexing, k, sats[k]), j + 1)].decimal,
             msg[DiscontinuityKey(sys, KeySat(indexing, k, sats[k]), j + 1)].decimal)
    {
      var keySat := KeySat(indexing, k, sats[k]);
      assert SignalEntries(msg, sys, gnssId, keySat, sigMask).Ok?;
      SignalEntriesShape(msg, sys, gnssId, keySat, sigMask);
      SignalEntryMeaning(msg, sys, gnssId, keySat, sigs[j] + 1, j + 1);
    }
  }

  /** Once a signal-mask prefix fails, every longer prefix fails with the same error. */
  lemma {:induction false} SignalEntriesErrorPersists(msg: Message, sys: int, gnssId: int, keySat: int, mask: seq<bool>, n: nat)
    requires n <= |mask|
    requires SignalEntries(msg, sys, gnssId, keySat, mask[..n]).Err?
    ensures SignalEntries(msg, sys, gnssId, keySat, mask) == SignalEntries(msg, sys, gnssId, keySat, mask[..n])
    decreases |mask| - n
  {
    if n == |mask| {
      assert mask[..n] == mask;
    } else {
      assert mask[..n + 1][..n] == mask[..n];
      SignalEntriesErrorPersists(msg, sys, gnssId, keySat, mask, n + 1);
    }
  }

  /** Once a satellite-mask prefix fails, every longer prefix fails with the same error. */
  lemma {:induction false} SatelliteRecordsErrorPersists(msg: Message, sys: int, gnssId: int, sigMask: seq<bool>, indexing: SatKeyIndexing, mask: seq<bool>, n: nat)
    requires n <= |mask|
    requires SatelliteRecords(msg, sys, gnssId, sigMask, indexing, mask[..n]).Err?
    ensures SatelliteRecords(msg, sys, gnssId, sigMask, indexing, mask) == SatelliteRecords(msg, sys, gnssId, sigMask, indexing, mask[..n])
    decreases |mask| - n
  {
    if n == |mask| {
      assert mask[..n] == mask;
    } else {
      assert mask[..n + 1][..n] == mask[..n];
      SatelliteRecordsErrorPersists(msg, sys, gnssId, sigMask, indexing, mask, n + 1);
    }
  }

  // ---------------------------------------------------------------------------
  // Decoding one GNSS block: the loops
  // ---------------------------------------------------------------------------

  /**
   * The inner loop of `phaseBlock`: the signal mask walked with the position
   * counter `signal` and the set-bit counter `signalCount`, for the satellite
   * whose bias keys carry `keySat`.
   */
  method SignalLoop(msg: Message, sys: int, gnssId: int, keySat: int, signalMask: seq<bool>)
    returns (r: Result<seq<SignalBias>, ParseError>)
    ensures r == SignalEntries(msg, sys, gnssId, keySat, signalMask)
  {
    var phaseBiasPerSig: seq<SignalBias> := [];
    var signal := 1;
    var signalCount := 1;
    var sig := 0;
    while sig < |signalMask|
      invariant 0 <= sig <= |signalMask|
      invariant signal == sig + 1 && signalCount == |phaseBiasPerSig| + 1
      invariant SignalEntries(msg, sys, gnssId, keySat, signalMask[..sig]) == Ok(phaseBiasPerSig)
    {
      assert signalMask[..sig + 1][..sig] == signalMask[..sig];
      if signalMask[sig] {
        var entry := SignalEntry(msg, sys, gnssId, keySat, signal, signalCount);
        if entry.Err? {
          SignalEntriesErrorPersists(msg, sys, gnssId, keySat, signalMask, sig + 1);
          return Err(entry.error);
        }
        phaseBiasPerSig := phaseBiasPerSig + [entry.value];
        signalCount := signalCount + 1;
      }
      signal := signal + 1;
      sig := sig + 1;
    }
    assert signalMask[..sig] == signalMask;
    return Ok(phaseBiasPerSig);
  }

  /**
   * `phaseBlock(msg, sys)`. The loop walks the satellite mask with the position
   * counter `svId`, and each record's `sat` is `svId`. The bias keys carry `svId`
   * as their satellite index under `ByPosition` (the decoder as written), or the
   * set-bit counter `satCount` under `BySetBit` (the numbering the layout declares).
   */
  method PhaseBlock(msg: Message, sys: int, indexing: SatKeyIndexing) returns (r: Result<SystemBiases, ParseError>)
    ensures r == SystemBlock(msg, sys, indexing)
  {
    if GnssIdKey(sys) !in msg { return Err(KeyError(GnssIdKey(sys))); }
    var gnssId := msg[GnssIdKey(sys)].decimal;
    if SatelliteMaskKey(sys) !in msg { return Err(KeyError(SatelliteMaskKey(sys))); }
    var satelliteMask := msg[SatelliteMaskKey(sys)].binary;
    if SignalMaskKey(sys) !in msg { return Err(KeyError(SignalMaskKey(sys))); }
    var signalMask := msg[SignalMaskKey(sys)].binary;

    var phaseBiasesPerSat: seq<SatelliteBiases> := [];
    var svId := 1;
    var satCount := 1;
    var sat := 0;
    while sat < |satelliteMask|
      invariant 0 <= sat <= |satelliteMask|
      invariant svId == sat + 1 && satCount == |phaseBiasesPerSat| + 1
      invariant SatelliteRecords(msg, sys, gnssId, signalMask, indexing, satelliteMask[..sat]) == Ok(phaseBiasesPerSat)
    {
      assert satelliteMask[..sat + 1][..sat] == satelliteMask[..sat];
      if satelliteMask[sat] {
        var keySat := if indexing == ByPosition then svId else satCount;
        var phaseBiasPerSig := SignalLoop(msg, sys, gnssId, keySat, signalMask);
        if phaseBiasPerSig.Err? {
          SatelliteRecordsErrorPersists(msg, sys, gnssId, signalMask, indexing, satelliteMask, sat + 1);
          return Err(phaseBiasPerSig.error);
        }
        phaseBiasesPerSat := phaseBiasesPerSat + [SatelliteBiases(svId, phaseBiasPerSig.value)];
        satCount := satCount + 1;
      }
      svId := svId + 1;
      sat := sat + 1;
    }
    assert satelliteMask[..sat] == satelliteMask;
    var name := GnssName(gnssId);
    if name.None? { return Err(UnknownGnss(gnssId)); }
    return Ok(SystemBiases(name.value, phaseBiasesPerSat));
  }

  // ---------------------------------------------------------------------------
  // Decoding the whole phase-bias block
  // ---------------------------------------------------------------------------

  function Max0(n: int): nat {
    if n < 0 then 0 else n
  }

  /** The blocks of systems `1..n`, in order, stopping at the first that fails. */
  function Blocks(msg: Message, n: nat, indexing: SatKeyIndexing): Result<seq<SystemBiases>, ParseError> {
    if n == 0 then Ok([])
    else
      match Blocks(msg, n - 1, indexing)
      case Err(e) => Err(e)
      case Ok(prev) =>
        match SystemBlock(msg, n, indexing)
        case Err(e) => Err(e)
        case Ok(block) => Ok(prev + [block])
  }

  /** The phase-bias block: the validity interval index, then `n_sys` system blocks. */
  function PhaseBiasesOf(msg: Message, indexing: SatKeyIndexing): Result<PhaseBiases, ParseError> {
    if ValidityIntervalKey !in msg then Err(KeyError(ValidityIntervalKey))
    else if NSysKey !in msg then Err(KeyError(NSysKey))
    else
      match Blocks(msg, Max0(msg[NSysKey].decimal), indexing)
      case Err(e) => Err(e)
      case Ok(blocks) => Ok(PhaseBiases(msg[ValidityIntervalKey].decimal, blocks))
  }

  /** The blocks of systems `1..n` decode exactly when each of them does, and then block `i` is system `i + 1`'s. */
  lemma {:induction false} BlocksShape(msg: Message, n: nat, indexing: SatKeyIndexing)
    ensures Blocks(msg, n, indexing).Ok? <==> forall s :: 1 <= s <= n ==> SystemBlock(msg, s, indexing).Ok?
    ensures Blocks(msg, n, indexing).Ok? ==>
      && |Blocks(msg, n, indexing).value| == n
      && forall i :: 0 <= i < n ==> SystemBlock(msg, i + 1, indexing) == Ok(Blocks(msg, n, indexing).value[i])
  {
    if n > 0 {
      BlocksShape(msg, n - 1, indexing);
      var r := Blocks(msg, n - 1, indexing);
      if r.Ok? && SystemBlock(msg, n, indexing).Ok? {
        var blocks := r.value + [SystemBlock(msg, n, indexing).value];
        assert Blocks(msg, n, indexing) == Ok(blocks);
        forall i | 0 <= i < n
          ensures SystemBlock(msg, i + 1, indexing) == Ok(blocks[i])
        {
          if i < n - 1 {
            assert blocks[i] == r.value[i];
          }
        }
      } else if r.Err? {
        var s :| 1 <= s <= n - 1 && !SystemBlock(msg, s, indexing).Ok?;
      }
    }
  }

  /**
   * The phase-bias block decodes exactly when both header fields are present and
   * every system block `1..n_sys` is readable; it then holds `max(0, n_sys)`
   * blocks, block `i` being system `i + 1`'s, and the validity interval index.
   */
  lemma PhaseBiasesShape(msg: Message, indexing: SatKeyIndexing)
    ensures PhaseBiasesOf(msg, indexing).Ok? <==>
      && ValidityIntervalKey in msg && NSysKey in msg
      && forall s :: 1 <= s <= msg[NSysKey].decimal ==> BlockReadable(msg, s, indexing)
    ensures PhaseBiasesOf(msg, indexing).Ok? ==>
      && ValidityIntervalKey in msg && NSysKey in msg
      && var p := PhaseBiasesOf(msg, indexing).value;
         && p.validityIntervalIndex == msg[ValidityIntervalKey].decimal
         && |p.phaseBiasesPerSys| == Max0(msg[NSysKey].decimal)
         && forall i :: 0 <= i < |p.phaseBiasesPerSys| ==> SystemBlock(msg, i + 1, indexing) == Ok(p.phaseBiasesPerSys[i])
  {
    if ValidityIntervalKey in msg && NSysKey in msg {
      var n := Max0(msg[NSysKey].decimal);
      BlocksShape(msg, n, indexing);
      forall s | 1 <= s <= n
        ensures SystemBlock(msg, s, indexing).Ok? <==> BlockReadable(msg, s, indexing)
      {
        SystemBlockDecodes(msg, s, indexing);
      }
    }
  }

  /** Once the blocks of systems `1..m` fail, the blocks of `1..n` fail the same way for every `n >= m`. */
  lemma {:induction false} BlocksErrorPersists(msg: Message, m: nat, n: nat, indexing: SatKeyIndexing)
    requires m <= n && Blocks(msg, m, indexing).Err?
    ensures Blocks(msg, n, indexing) == Blocks(msg, m, indexing)
    decreases n - m
  {
    if m < n {
      BlocksErrorPersists(msg, m, n - 1, indexing);
    }
  }

  /** `phase(msg)`: the loop over systems `1..n_sys`, with either numbering of the bias keys' satellite. */
  method Phase(msg: Message, indexing: SatKeyIndexing) returns (r: Result<PhaseBiases, ParseError>)
    ensures r == PhaseBiasesOf(msg, indexing)
  {
    if ValidityIntervalKey !in msg { return Err(KeyError(ValidityIntervalKey)); }
    var vi := msg[ValidityIntervalKey].decimal;
    if NSysKey !in msg { return Err(KeyError(NSysKey)); }
    var nSys := msg[NSysKey].decimal;

    var phaseBiasesPerSys: seq<SystemBiases> := [];
    var sys := 1;
    while sys < nSys + 1
      invariant 1 <= sys <= Max0(nSys) + 1
      invariant Blocks(msg, sys - 1, indexing) == Ok(phaseBiasesPerSys)
    {
      var block := PhaseBlock(msg, sys, indexing);
      if block.Err? {
        BlocksErrorPersists(msg, sys, Max0(nSys), indexing);
        return Err(block.error);
      }
      phaseBiasesPerSys := phaseBiasesPerSys + [block.value];
      sys := sys + 1;
    }
    return Ok(PhaseBiases(vi, phaseBiasesPerSys));
  }

  // ---------------------------------------------------------------------------
  // The field layout
  // ---------------------------------------------------------------------------

  datatype Unit = Meter

  /** The optional arguments of a parameter declaration: a flag, a scale factor and a unit. */
  datatype Scaling = Scaling(flag: bool, scale: real, unit: Unit)

  /** One declared field: its name, its width in bits and its optional scaling. */
  datatype Param = Param(key: FieldKey, bits: nat, scaling: Option<Scaling>)

  /** The (system, satellite, signal) numbers of one pair of bias fields. */
  datatype BiasIndex = BiasIndex(sys: int, sat: int, sig: int)

  function ValidityParam(): Param {
    Param(ValidityIntervalKey, 4, None)
  }

  function PhaseBiasParam(b: BiasIndex): Param {
    Param(PhaseBiasKey(b.sys, b.sat, b.sig), 11, Some(Scaling(true, 0.01, Meter)))
  }

  function DiscontinuityParam(b: BiasIndex): Param {
    Param(DiscontinuityKey(b.sys, b.sat, b.sig), 2, None)
  }

  /** Each index becomes its phase-bias field immediately followed by its discontinuity field. */
  function Expand(indices: seq<BiasIndex>): seq<Param>
  {
    if indices == [] then []
    else
      var last := indices[|indices| - 1];
      Expand(indices[..|indices| - 1]) + [PhaseBiasParam(last), DiscontinuityParam(last)]
  }

  /** Two fields per index: field `2t` is the phase bias and field `2t + 1` the discontinuity indicator of index `t`. */
  lemma {:induction false} ExpandShape(indices: seq<BiasIndex>)
    ensures |Expand(indices)| == 2 * |indices|
    ensures forall t :: 0 <= t < |indices| ==>
      Expand(indices)[2 * t] == PhaseBiasParam(indices[t]) && Expand(indices)[2 * t + 1] == DiscontinuityParam(indices[t])
  {
    if indices != [] {
      var init := indices[..|indices| - 1];
      ExpandShape(init);
      forall t | 0 <= t < |indices| - 1
        ensures Expand(indices)[2 * t] == PhaseBiasParam(indices[t]) && Expand(indices)[2 * t + 1] == DiscontinuityParam(indices[t])
      {
        assert indices[t] == init[t];
      }
    }
  }

  lemma ExpandAppend(a: seq<BiasIndex>, b: seq<BiasIndex>)
    ensures Expand(a + b) == Expand(a) + Expand(b)
  {
    var l, r := Expand(a + b), Expand(a) + Expand(b);
    ExpandShape(a + b);
    ExpandShape(a);
    ExpandShape(b);
    assert |l| == |r|;
    forall i | 0 <= i < |l|
      ensures l[i] == r[i]
    {
      var t := i / 2;
      if i % 2 == 0 {
        assert i == 2 * t;
        if t < |a| {
          assert (a + b)[t] == a[t];
        } else {
          assert (a + b)[t] == b[t - |a|] && i - |Expand(a)| == 2 * (t - |a|);
        }
      } else {
        assert i == 2 * t + 1;
        if t < |a| {
          assert (a + b)[t] == a[t];
        } else {
          assert (a + b)[t] == b[t - |a|] && i - |Expand(a)| == 2 * (t - |a|) + 1;
        }
      }
    }
  }

  /** The signals `1..n` of one satellite. */
  function SigIndices(sys: int, sat: int, n: int): seq<BiasIndex>
    decreases n
  {
    if n <= 0 then [] else SigIndices(sys, sat, n - 1) + [BiasIndex(sys, sat, n)]
  }

  /** The satellites `1..nSat` of one system, each with the signals `1..nSig`. */
  function SatIndices(sys: int, nSat: int, nSig: int): seq<BiasIndex>
    decreases nSat
  {
    if nSat <= 0 then [] else SatIndices(sys, nSat - 1, nSig) + SigIndices(sys, nSat, nSig)
  }

  /** `satCounts[sys - 1]`, or zero when the list is too short. */
  function SatCount(satCounts: seq<int>, sys: int): int {
    if 1 <= sys <= |satCounts| then satCounts[sys - 1] else 0
  }

  /** `sigCounts[sys - 1]`, or zero when the list is too short. */
  function SigCount(sigCounts: seq<int>, sys: int): int {
    if 1 <= sys <= |sigCounts| then sigCounts[sys - 1] else 0
  }

  /** System `sys` can be laid out: its satellite count exists, and its signal count too when it has a satellite. */
  predicate CountsPresent(satCounts: seq<int>, sigCounts: seq<int>, sys: int) {
    1 <= sys <= |satCounts| && (satCounts[sys - 1] >= 1 ==> sys <= |sigCounts|)
  }

  /** The bias indices of systems `1..nsys`, and whether every system could be laid out. */
  datatype Layout = Layout(indices: seq<BiasIndex>, complete: bool)

  function SystemsLayout(nsys: int, satCounts: seq<int>, sigCounts: seq<int>): Layout
    decreases nsys
  {
    if nsys <= 0 then Layout([], true)
    else
      var prev := SystemsLayout(nsys - 1, satCounts, sigCounts);
      if !prev.complete then prev
      else if !CountsPresent(satCounts, sigCounts, nsys) then Layout(prev.indices, false)
      else Layout(prev.indices + SatIndices(nsys, satCounts[nsys - 1], SigCount(sigCounts, nsys)), true)
  }

  /** The fields `handlePhaseBlock` declares, in declaration order. */
  function LayoutParams(nsys: int, satCounts: seq<int>, sigCounts: seq<int>): seq<Param> {
    [ValidityParam()] + Expand(SystemsLayout(nsys, satCounts, sigCounts).indices)
  }

  /** The declared order: by system, then satellite, then signal. */
  predicate LexLess(a: BiasIndex, b: BiasIndex) {
    || a.sys < b.sys
    || (a.sys == b.sys && a.sat < b.sat)
    || (a.sys == b.sys && a.sat == b.sat && a.sig < b.sig)
  }

  predicate Ascending(indices: seq<BiasIndex>) {
    forall i, j :: 0 <= i < j < |indices| ==> LexLess(indices[i], indices[j])
  }

  lemma AscendingAppend(a: seq<BiasIndex>, b: seq<BiasIndex>)
    requires Ascending(a) && Ascending(b)
    requires forall i, j :: 0 <= i < |a| && 0 <= j < |b| ==> LexLess(a[i], b[j])
    ensures Ascending(a + b)
  {
    forall i, j | 0 <= i < j < |a + b|
      ensures LexLess((a + b)[i], (a + b)[j])
    {
      if j < |a| {
        assert (a + b)[i] == a[i] && (a + b)[j] == a[j];
      } else if i < |a| {
        assert (a + b)[i] == a[i] && (a + b)[j] == b[j - |a|];
      } else {
        assert (a + b)[i] == b[i - |a|] && (a + b)[j] == b[j - |a|];
      }
    }
  }

  /** A satellite's indices are its signals `1..n`, one each, in order. */
  lemma {:induction false} SigIndicesEnumerate(sys: int, sat: int, n: int)
    ensures |SigIndices(sys, sat, n)| == Max0(n)
    ensures forall j :: 0 <= j < Max0(n) ==> SigIndices(sys, sat, n)[j] == BiasIndex(sys, sat, j + 1)
    decreases n
  {
    if n > 0 {
      SigIndicesEnumerate(sys, sat, n - 1);
      var prev := SigIndices(sys, sat, n - 1);
      forall j | 0 <= j < n
        ensures SigIndices(sys, sat, n)[j] == BiasIndex(sys, sat, j + 1)
      {
        if j < n - 1 {
          assert SigIndices(sys, sat, n)[j] == prev[j];
        }
      }
    }
  }

  /** A system has `nSat * nSig` indices. */
  lemma {:induction false} SatIndicesCount(sys: int, nSat: int, nSig: int)
    ensures |SatIndices(sys, nSat, nSig)| == Max0(nSat) * Max0(nSig)
    decreases nSat
  {
    if nSat > 0 {
      SatIndicesCount(sys, nSat - 1, nSig);
      SigIndicesEnumerate(sys, nSat, nSig);
      assert Max0(nSat) * Max0(nSig) == Max0(nSat - 1) * Max0(nSig) + Max0(nSig);
    }
  }

  /** A system's indices are exactly its satellites `1..nSat` crossed with the signals `1..nSig`. */
  lemma {:induction false} SatIndicesMembers(sys: int, nSat: int, nSig: int)
    ensures forall b :: b in SatIndices(sys, nSat, nSig) <==> b.sys == sys && 1 <= b.sat <= nSat && 1 <= b.sig <= nSig
    decreases nSat
  {
    if nSat > 0 {
      SatIndicesMembers(sys, nSat - 1, nSig);
      SigIndicesEnumerate(sys, nSat, nSig);
      var sigs := SigIndices(sys, nSat, nSig);
      forall b: BiasIndex | b.sys == sys && b.sat == nSat && 1 <= b.sig <= nSig
        ensures b in sigs
      {
        assert sigs[b.sig - 1] == b;
      }
      forall b | b in sigs
        ensures b.sys == sys && b.sat == nSat && 1 <= b.sig <= nSig
      {
        var j :| 0 <= j < |sigs| && sigs[j] == b;
      }
    }
  }

  /** A satellite's indices are strictly ascending. */
  lemma SigIndicesAscending(sys: int, sat: int, n: int)
    ensures Ascending(SigIndices(sys, sat, n))
  {
    SigIndicesEnumerate(sys, sat, n);
    var sigs := SigIndices(sys, sat, n);
    forall i, j | 0 <= i < j < |sigs|
      ensures LexLess(sigs[i], sigs[j])
    {
      assert sigs[i].sig == i + 1 && sigs[j].sig == j + 1;
    }
  }

  /** A system's indices are strictly ascending. */
  lemma {:induction false} SatIndicesAscending(sys: int, nSat: int, nSig: int)
    ensures Ascending(SatIndices(sys, nSat, nSig))
    decreases nSat
  {
    if nSat > 0 {
      var prev := SatIndices(sys, nSat - 1, nSig);
      var sigs := SigIndices(sys, nSat, nSig);
      SatIndicesAscending(sys, nSat - 1, nSig);
      SigIndicesAscending(sys, nSat, nSig);
      SatIndicesMembers(sys, nSat - 1, nSig);
      SigIndicesEnumerate(sys, nSat, nSig);
      forall i, j | 0 <= i < |prev| && 0 <= j < |sigs|
        ensures LexLess(prev[i], sigs[j])
      {
        assert prev[i] in prev;
        assert prev[i].sys == sys && prev[i].sat < nSat;
        assert sigs[j].sys == sys && sigs[j].sat == nSat;
      }
      AscendingAppend(prev, sigs);
    }
  }

  /** Every system `1..nsys` can be laid out. */
  predicate AllCountsPresent(nsys: int, satCounts: seq<int>, sigCounts: seq<int>) {
    forall s :: 1 <= s <= nsys ==> CountsPresent(satCounts, sigCounts, s)
  }

  /** The number of bias indices of systems `1..nsys`: the sum of their satellite and signal counts' products. */
  function BoxSize(nsys: int, satCounts: seq<int>, sigCounts: seq<int>): nat
    decreases nsys
  {
    if nsys <= 0 then 0
    else BoxSize(nsys - 1, satCounts, sigCounts) + Max0(SatCount(satCounts, nsys)) * Max0(SigCount(sigCounts, nsys))
  }

  /** An index lies in the box of systems `1..nsys` and their counts. */
  predicate InBox(nsys: int, satCounts: seq<int>, sigCounts: seq<int>, b: BiasIndex) {
    && 1 <= b.sys <= nsys
    && 1 <= b.sat <= SatCount(satCounts, b.sys)
    && 1 <= b.sig <= SigCount(sigCounts, b.sys)
  }

  /**
   * The layout of systems `1..nsys` is complete exactly when every system can be
   * laid out; its indices are strictly ascending; when complete, they are exactly
   * the indices in the box and there are `BoxSize` of them.
   */
  lemma {:induction false} SystemsLayoutEnumerate(nsys: int, satCounts: seq<int>, sigCounts: seq<int>)
    ensures SystemsLayout(nsys, satCounts, sigCounts).complete <==> AllCountsPresent(nsys, satCounts, sigCounts)
    ensures Ascending(SystemsLayout(nsys, satCounts, sigCounts).indices)
    ensures forall b :: b in SystemsLayout(nsys, satCounts, sigCounts).indices ==> 1 <= b.sys <= nsys
    ensures SystemsLayout(nsys, satCounts, sigCounts).complete ==>
      && |SystemsLayout(nsys, satCounts, sigCounts).indices| == BoxSize(nsys, satCounts, sigCounts)
      && forall b :: b in SystemsLayout(nsys, satCounts, sigCounts).indices <==> InBox(nsys, satCounts, sigCounts, b)
    decreases nsys
  {
    if nsys > 0 {
      SystemsLayoutEnumerate(nsys - 1, satCounts, sigCounts);
      var prev := SystemsLayout(nsys - 1, satCounts, sigCounts);
      if !prev.complete {
        var s :| 1 <= s <= nsys - 1 && !CountsPresent(satCounts, sigCounts, s);
      } else if CountsPresent(satCounts, sigCounts, nsys) {
        var nSat, nSig := satCounts[nsys - 1], SigCount(sigCounts, nsys);
        var mine := SatIndices(nsys, nSat, nSig);
        SatIndicesCount(nsys, nSat, nSig);
        SatIndicesMembers(nsys, nSat, nSig);
        SatIndicesAscending(nsys, nSat, nSig);
        forall i, j | 0 <= i < |prev.indices| && 0 <= j < |mine|
          ensures LexLess(prev.indices[i], mine[j])
        {
          assert prev.indices[i] in prev.indices && mine[j] in mine;
        }
        AscendingAppend(prev.indices, mine);
        assert SatCount(satCounts, nsys) == nSat;
        forall b
          ensures b in prev.indices + mine <==> InBox(nsys, satCounts, sigCounts, b)
        {
          assert b in prev.indices + mine <==> b in prev.indices || b in mine;
        }
      }
    }
  }

  /** Once a layout is incomplete, laying out more systems adds nothing. */
  lemma {:induction false} SystemsLayoutStaysIncomplete(m: int, n: int, satCounts: seq<int>, sigCounts: seq<int>)
    requires m <= n && !SystemsLayout(m, satCounts, sigCounts).complete
    ensures SystemsLayout(n, satCounts, sigCounts) == SystemsLayout(m, satCounts, sigCounts)
    decreases n - m
  {
    if m < n {
      SystemsLayoutStaysIncomplete(m, n - 1, satCounts, sigCounts);
    }
  }

  /** System `k + 1` is the first that cannot be laid out, and the layout of `1..nsys` is that of `1..k`. */
  predicate StopsAfter(nsys: int, satCounts: seq<int>, sigCounts: seq<int>, k: int) {
    && 0 <= k < nsys
    && SystemsLayout(k, satCounts, sigCounts).complete
    && !CountsPresent(satCounts, sigCounts, k + 1)
    && SystemsLayout(nsys, satCounts, sigCounts).indices == SystemsLayout(k, satCounts, sigCounts).indices
  }

  /**
   * An incomplete layout holds exactly the indices of the systems before the
   * first one that cannot be laid out.
   */
  lemma {:induction false} SystemsLayoutStopsAtFirstGap(nsys: int, satCounts: seq<int>, sigCounts: seq<int>)
    requires !SystemsLayout(nsys, satCounts, sigCounts).complete
    ensures exists k :: StopsAfter(nsys, satCounts, sigCounts, k)
    decreases nsys
  {
    var prev := SystemsLayout(nsys - 1, satCounts, sigCounts);
    if !prev.complete {
      SystemsLayoutStopsAtFirstGap(nsys - 1, satCounts, sigCounts);
      var k :| StopsAfter(nsys - 1, satCounts, sigCounts, k);
      assert SystemsLayout(nsys, satCounts, sigCounts) == prev;
      assert StopsAfter(nsys, satCounts, sigCounts, k);
    } else {
      assert StopsAfter(nsys, satCounts, sigCounts, nsys - 1);
    }
  }

  /** Field `i` of an expansion is the phase bias (even `i`) or discontinuity (odd `i`) field of index `i / 2`. */
  lemma ExpandKey(indices: seq<BiasIndex>, i: int)
    requires 0 <= i < 2 * |indices|
    ensures |Expand(indices)| == 2 * |indices|
    ensures var b := indices[i / 2];
      Expand(indices)[i].key == if i % 2 == 0 then PhaseBiasKey(b.sys, b.sat, b.sig) else DiscontinuityKey(b.sys, b.sat, b.sig)
  {
    var t := i / 2;
    ExpandShape(indices);
    if i % 2 == 0 { assert i == 2 * t; } else { assert i == 2 * t + 1; }
  }

  /** An ascending list of indices expands to fields with pairwise distinct names. */
  lemma ExpandKeysDistinct(indices: seq<BiasIndex>)
    requires Ascending(indices)
    ensures forall i, j :: 0 <= i < j < |Expand(indices)| ==> Expand(indices)[i].key != Expand(indices)[j].key
  {
    var ex := Expand(indices);
    ExpandShape(indices);
    forall i, j | 0 <= i < j < |ex|
      ensures ex[i].key != ex[j].key
    {
      ExpandKey(indices, i);
      ExpandKey(indices, j);
      if i / 2 != j / 2 {
        assert LexLess(indices[i / 2], indices[j / 2]);
      }
    }
  }

  /** The validity field followed by an ascending expansion: no field name occurs twice. */
  lemma DeclaredKeysDistinct(indices: seq<BiasIndex>)
    requires Ascending(indices)
    ensures var params := [ValidityParam()] + Expand(indices);
      forall i, j :: 0 <= i < j < |params| ==> params[i].key != params[j].key
  {
    var params := [ValidityParam()] + Expand(indices);
    var ex := Expand(indices);
    ExpandShape(indices);
    ExpandKeysDistinct(indices);
    forall i, j | 0 <= i < j < |params|
      ensures params[i].key != params[j].key
    {
      assert params[j] == ex[j - 1];
      if i > 0 {
        assert params[i] == ex[i - 1];
      } else {
        ExpandKey(indices, j - 1);
      }
    }
  }

  /** The validity field followed by an expansion: field `1 + 2t` and `2 + 2t` are the two fields of index `t`. */
  lemma DeclaredFieldsAt(indices: seq<BiasIndex>)
    ensures var params := [ValidityParam()] + Expand(indices);
      && |params| == 1 + 2 * |indices|
      && params[0] == ValidityParam()
      && forall t :: 0 <= t < |indices| ==>
           params[1 + 2 * t] == PhaseBiasParam(indices[t]) && params[2 + 2 * t] == DiscontinuityParam(indices[t])
  {
    var params := [ValidityParam()] + Expand(indices);
    var ex := Expand(indices);
    ExpandShape(indices);
    forall t | 0 <= t < |indices|
      ensures params[1 + 2 * t] == PhaseBiasParam(indices[t]) && params[2 + 2 * t] == DiscontinuityParam(indices[t])
    {
      assert params[1 + 2 * t] == ex[2 * t] && params[2 + 2 * t] == ex[2 * t + 1];
    }
  }

  /**
   * The declared fields: the 4-bit validity interval index first, then per index,
   * in ascending order, its 11-bit phase bias followed by its 2-bit discontinuity
   * indicator; `1 + 2 * BoxSize` fields when complete, and no name declared twice.
   */
  lemma LayoutParamsShape(nsys: int, satCounts: seq<int>, sigCounts: seq<int>)
    ensures var params := LayoutParams(nsys, satCounts, sigCounts);
      var indices := SystemsLayout(nsys, satCounts, sigCounts).indices;
      && |params| == 1 + 2 * |indices|
      && params[0] == ValidityParam() && params[0].bits == 4
      && (forall t :: 0 <= t < |indices| ==>
            && params[1 + 2 * t] == PhaseBiasParam(indices[t]) && params[1 + 2 * t].bits == 11
            && params[2 + 2 * t] == DiscontinuityParam(indices[t]) && params[2 + 2 * t].bits == 2)
      && (SystemsLayout(nsys, satCounts, sigCounts).complete ==> |params| == 1 + 2 * BoxSize(nsys, satCounts, sigCounts))
      && forall i, j :: 0 <= i < j < |params| ==> params[i].key != params[j].key
  {
    var indices := SystemsLayout(nsys, satCounts, sigCounts).indices;
    SystemsLayoutEnumerate(nsys, satCounts, sigCounts);
    DeclaredFieldsAt(indices);
    DeclaredKeysDistinct(indices);
  }

  /** The object `handlePhaseBlock` declares its fields on: an ordered, append-only list of declarations. */
  class ParameterGenerator {
    var params: seq<Param>

    constructor ()
      ensures params == []
    {
      params := [];
    }

    /** `addParametertoDict(name, bits, ...)`: declares one more field after the ones already declared. */
    method AddParameterToDict(key: FieldKey, bits: nat, scaling: Option<Scaling>)
      modifies this
      ensures params == old(params) + [Param(key, bits, scaling)]
    {
      params := params + [Param(key, bits, scaling)];
    }
  }

  /** Declaring one more signal appends its two fields to the expansion. */
  lemma SigIndicesStep(sys: int, sat: int, sig: int)
    requires sig >= 1
    ensures Expand(SigIndices(sys, sat, sig)) == Expand(SigIndices(sys, sat, sig - 1)) + [PhaseBiasParam(BiasIndex(sys, sat, sig)), DiscontinuityParam(BiasIndex(sys, sat, sig))]
  {
    var b := BiasIndex(sys, sat, sig);
    ExpandAppend(SigIndices(sys, sat, sig - 1), [b]);
    assert [b][..0] == [];
  }

  lemma AppendPair<T>(a: seq<T>, b: seq<T>, x: T, y: T)
    ensures a + b + [x] + [y] == a + (b + [x, y])
  {
  }

  lemma AppendAssoc<T>(a: seq<T>, b: seq<T>, c: seq<T>)
    ensures a + b + c == a + (b + c)
  {
  }

  /** The innermost loop of `handlePhaseBlock`: declares the phase bias and discontinuity fields of signals `1..n` of one satellite. */
  method DeclareSignals(gen: ParameterGenerator, sys: int, sat: int, n: int)
    modifies gen
    ensures gen.params == old(gen.params) + Expand(SigIndices(sys, sat, n))
  {
    var sig := 1;
    while sig < n + 1
      invariant 1 <= sig <= Max0(n) + 1
      invariant gen.params == old(gen.params) + Expand(SigIndices(sys, sat, sig - 1))
    {
      gen.AddParameterToDict(PhaseBiasKey(sys, sat, sig), 11, Some(Scaling(true, 0.01, Meter)));
      gen.AddParameterToDict(DiscontinuityKey(sys, sat, sig), 2, None);
      SigIndicesStep(sys, sat, sig);
      AppendPair(old(gen.params), Expand(SigIndices(sys, sat, sig - 1)), PhaseBiasParam(BiasIndex(sys, sat, sig)), DiscontinuityParam(BiasIndex(sys, sat, sig)));
      sig := sig + 1;
    }
    assert SigIndices(sys, sat, sig - 1) == SigIndices(sys, sat, n);
  }

  /**
   * The middle loop of `handlePhaseBlock`: declares satellites `1..satCount` of
   * system `sys`. It fails, declaring nothing, where the source raises an index
   * error: a satellite to declare but no signal count for the system.
   */
  method DeclareSatellites(gen: ParameterGenerator, sys: int, satCount: int, sigCounts: seq<int>) returns (ok: bool)
    requires sys >= 1
    modifies gen
    ensures ok == (satCount >= 1 ==> sys <= |sigCounts|)
    ensures ok ==> gen.params == old(gen.params) + Expand(SatIndices(sys, satCount, SigCount(sigCounts, sys)))
    ensures !ok ==> gen.params == old(gen.params)
  {
    var sat := 1;
    while sat < satCount + 1
      invariant 1 <= sat <= Max0(satCount) + 1
      invariant sat > 1 ==> sys <= |sigCounts|
      invariant gen.params == old(gen.params) + Expand(SatIndices(sys, sat - 1, SigCount(sigCounts, sys)))
    {
      if sys - 1 >= |sigCounts| {
        assert SatIndices(sys, sat - 1, SigCount(sigCounts, sys)) == [];
        return false;
      }
      DeclareSignals(gen, sys, sat, sigCounts[sys - 1]);
      ExpandAppend(SatIndices(sys, sat - 1, sigCounts[sys - 1]), SigIndices(sys, sat, sigCounts[sys - 1]));
      AppendAssoc(old(gen.params), Expand(SatIndices(sys, sat - 1, sigCounts[sys - 1])), Expand(SigIndices(sys, sat, sigCounts[sys - 1])));
      sat := sat + 1;
    }
    assert SatIndices(sys, sat - 1, SigCount(sigCounts, sys)) == SatIndices(sys, satCount, SigCount(sigCounts, sys));
    return true;
  }

  /**
   * `handlePhaseBlock(gen, nsys, satCounts, sigCounts)`: declares the layout of
   * systems `1..nsys`. It returns false where the source raises an index error
   * (a missing satellite count, or a missing signal count for a system with a
   * satellite); the fields declared before that point stay declared.
   */
  method HandlePhaseBlock(gen: ParameterGenerator, nsys: int, satCounts: seq<int>, sigCounts: seq<int>)
    returns (completed: bool)
    modifies gen
    ensures gen.params == old(gen.params) + LayoutParams(nsys, satCounts, sigCounts)
    ensures completed == SystemsLayout(nsys, satCounts, sigCounts).complete
  {
    gen.AddParameterToDict(ValidityIntervalKey, 4, None);
    ghost var start := gen.params;
    var sys := 1;
    while sys < nsys + 1
      invariant 1 <= sys <= Max0(nsys) + 1
      invariant SystemsLayout(sys - 1, satCounts, sigCounts).complete
      invariant start == old(gen.params) + [ValidityParam()]
      invariant gen.params == start + Expand(SystemsLayout(sys - 1, satCounts, sigCounts).indices)
    {
      if sys - 1 >= |satCounts| {
        SystemsLayoutStaysIncomplete(sys, nsys, satCounts, sigCounts);
        return false;
      }
      ghost var prev := SystemsLayout(sys - 1, satCounts, sigCounts).indices;
      var declared := DeclareSatellites(gen, sys, satCounts[sys - 1], sigCounts);
      if !declared {
        SystemsLayoutStaysIncomplete(sys, nsys, satCounts, sigCounts);
        return false;
      }
      ExpandAppend(prev, SatIndices(sys, satCounts[sys - 1], SigCount(sigCounts, sys)));
      AppendAssoc(start, Expand(prev), Expand(SatIndices(sys, satCounts[sys - 1], SigCount(sigCounts, sys))));
      sys := sys + 1;
    }
    assert SystemsLayout(sys - 1, satCounts, sigCounts) == SystemsLayout(nsys, satCounts, sigCounts);
    return true;
  }

  // ---------------------------------------------------------------------------
  // Declared layout against the decoder
  // ---------------------------------------------------------------------------

  /** The names of the fields `handlePhaseBlock` declares. */
  function DeclaredKeys(nsys: int, satCounts: seq<int>, sigCounts: seq<int>): set<FieldKey> {
    var params := LayoutParams(nsys, satCounts, sigCounts);
    set i | 0 <= i < |params| :: params[i].key
  }

  /** Both bias fields of every laid-out index are declared. */
  lemma DeclaredKeysOfIndex(nsys: int, satCounts: seq<int>, sigCounts: seq<int>, b: BiasIndex)
    requires b in SystemsLayout(nsys, satCounts, sigCounts).indices
    ensures PhaseBiasKey(b.sys, b.sat, b.sig) in DeclaredKeys(nsys, satCounts, sigCounts)
    ensures DiscontinuityKey(b.sys, b.sat, b.sig) in DeclaredKeys(nsys, satCounts, sigCounts)
  {
    var indices := SystemsLayout(nsys, satCounts, sigCounts).indices;
    var params := LayoutParams(nsys, satCounts, sigCounts);
    var t :| 0 <= t < |indices| && indices[t] == b;
    DeclaredFieldsAt(indices);
    assert params[1 + 2 * t].key == PhaseBiasKey(b.sys, b.sat, b.sig);
    assert params[2 + 2 * t].key == DiscontinuityKey(b.sys, b.sat, b.sig);
  }

  /**
   * When the declared counts of system `sys` are the numbers of set bits of its
   * masks, every pair of bias fields the corrected decoder reads for it is declared.
   */
  lemma CorrectedReadsAreDeclared(nsys: int, satCounts: seq<int>, sigCounts: seq<int>, sys: int, satMask: seq<bool>, sigMask: seq<bool>)
    requires SystemsLayout(nsys, satCounts, sigCounts).complete
    requires 1 <= sys <= nsys
    requires SatCount(satCounts, sys) == |SetPositions(satMask)|
    requires SigCount(sigCounts, sys) == |SetPositions(sigMask)|
    ensures var sats := SetPositions(satMask);
      forall k, c :: 0 <= k < |sats| && 1 <= c <= |SetPositions(sigMask)| ==>
        && PhaseBiasKey(sys, KeySat(BySetBit, k, sats[k]), c) in DeclaredKeys(nsys, satCounts, sigCounts)
        && DiscontinuityKey(sys, KeySat(BySetBit, k, sats[k]), c) in DeclaredKeys(nsys, satCounts, sigCounts)
  {
    var sats := SetPositions(satMask);
    SystemsLayoutEnumerate(nsys, satCounts, sigCounts);
    forall k, c | 0 <= k < |sats| && 1 <= c <= |SetPositions(sigMask)|
      ensures && PhaseBiasKey(sys, KeySat(BySetBit, k, sats[k]), c) in DeclaredKeys(nsys, satCounts, sigCounts)
              && DiscontinuityKey(sys, KeySat(BySetBit, k, sats[k]), c) in DeclaredKeys(nsys, satCounts, sigCounts)
    {
      var b := BiasIndex(sys, k + 1, c);
      assert InBox(nsys, satCounts, sigCounts, b);
      DeclaredKeysOfIndex(nsys, satCounts, sigCounts, b);
    }
  }

  /**
   * A message holding every declared field and the three header fields of system
   * `sys`, whose masks have as many set bits as the declared counts (and a signal
   * mask of at most 16 bits, for a known GNSS), decodes with the corrected decoder.
   */
  lemma DeclaredBlockDecodes(msg: Message, nsys: int, satCounts: seq<int>, sigCounts: seq<int>, sys: int)
    requires SystemsLayout(nsys, satCounts, sigCounts).complete
    requires 1 <= sys <= nsys
    requires DeclaredKeys(nsys, satCounts, sigCounts) <= msg.Keys
    requires GnssIdKey(sys) in msg && SatelliteMaskKey(sys) in msg && SignalMaskKey(sys) in msg
    requires GnssName(msg[GnssIdKey(sys)].decimal).Some?
    requires |msg[SignalMaskKey(sys)].binary| <= 16
    requires SatCount(satCounts, sys) == |SetPositions(msg[SatelliteMaskKey(sys)].binary)|
    requires SigCount(sigCounts, sys) == |SetPositions(msg[SignalMaskKey(sys)].binary)|
    ensures SystemBlock(msg, sys, BySetBit).Ok?
  {
    var gnssId := msg[GnssIdKey(sys)].decimal;
    var sigMask := msg[SignalMaskKey(sys)].binary;
    var sats := SetPositions(msg[SatelliteMaskKey(sys)].binary);
    var sigs := SetPositions(sigMask);
    CorrectedReadsAreDeclared(nsys, satCounts, sigCounts, sys, msg[SatelliteMaskKey(sys)].binary, sigMask);
    SetPositionsAreTheSetBits(sigMask);
    forall k, j | 0 <= k < |sats| && 0 <= j < |sigs|
      ensures EntryReadable(msg, sys, gnssId, KeySat(BySetBit, k, sats[k]), sigs[j], j + 1)
    {
      assert sigs[j] < |sigMask|;
    }
    SystemBlockDecodes(msg, sys, BySetBit);
  }

  /** In a mask whose set bits form a prefix, the `k`-th set bit sits at position `k`. */
  predicate SetBitsArePrefix(mask: seq<bool>) {
    forall k :: 0 <= k < |SetPositions(mask)| ==> SetPositions(mask)[k] == k
  }

  lemma SetBitsArePrefixOfInit(mask: seq<bool>)
    requires mask != [] && SetBitsArePrefix(mask)
    ensures SetBitsArePrefix(mask[..|mask| - 1])
  {
    var init := mask[..|mask| - 1];
    assert mask == init + [mask[|mask| - 1]];
    SetPositionsSnoc(init, mask[|mask| - 1]);
    forall k | 0 <= k < |SetPositions(init)|
      ensures SetPositions(init)[k] == k
    {
      assert SetPositions(init)[k] == SetPositions(mask)[k];
    }
  }

  /**
   * Both ways of numbering the satellite in a bias key read the same fields and
   * build the same records when the set bits of the satellite mask form a prefix of it.
   */
  lemma {:induction false} IndexingsAgreeOnRecords(msg: Message, sys: int, gnssId: int, sigMask: seq<bool>, mask: seq<bool>)
    requires SetBitsArePrefix(mask)
    ensures SatelliteRecords(msg, sys, gnssId, sigMask, ByPosition, mask) == SatelliteRecords(msg, sys, gnssId, sigMask, BySetBit, mask)
  {
    if mask != [] {
      var init := mask[..|mask| - 1];
      SetBitsArePrefixOfInit(mask);
      IndexingsAgreeOnRecords(msg, sys, gnssId, sigMask, init);
      var r := SatelliteRecords(msg, sys, gnssId, sigMask, BySetBit, init);
      if r.Ok? && mask[|mask| - 1] {
        assert mask == init + [true];
        SetPositionsSnoc(init, true);
        SatelliteRecordsShape(msg, sys, gnssId, sigMask, BySetBit, init);
        assert SetPositions(mask)[|r.value|] == |mask| - 1;
      }
    }
  }

  lemma IndexingsAgree(msg: Message, sys: int)
    requires SatelliteMaskKey(sys) in msg && SetBitsArePrefix(msg[SatelliteMaskKey(sys)].binary)
    ensures SystemBlock(msg, sys, ByPosition) == SystemBlock(msg, sys, BySetBit)
  {
    if GnssIdKey(sys) in msg && SignalMaskKey(sys) in msg {
      IndexingsAgreeOnRecords(msg, sys, msg[GnssIdKey(sys)].decimal, msg[SignalMaskKey(sys)].binary, msg[SatelliteMaskKey(sys)].binary);
    }
  }

  // ---------------------------------------------------------------------------
  // The decoder as written: it numbers the satellite by its mask position
  // ---------------------------------------------------------------------------

  /**
   * One system (GPS) with satellite mask `01` and signal mask `1`: one satellite,
   * at position 2, with one signal; `handlePhaseBlock(gen, 1, [1], [1])` declares
   * exactly the fields of satellite 1, and this message holds those.
   */
  function FindingMessage(): Message {
    map[
      ValidityIntervalKey := Field(0, []),
      NSysKey := Field(1, []),
      GnssIdKey(1) := Field(GpsId, []),
      SatelliteMaskKey(1) := Field(1, [false, true]),
      SignalMaskKey(1) := Field(1, [true]),
      PhaseBiasKey(1, 1, 1) := Field(7, []),
      DiscontinuityKey(1, 1, 1) := Field(0, [])]
  }

  /** `handlePhaseBlock(gen, 1, [1], [1])` declares the validity field and the two bias fields of satellite 1, signal 1. */
  lemma FindingDeclaredKeys()
    ensures DeclaredKeys(1, [1], [1]) == {ValidityIntervalKey, PhaseBiasKey(1, 1, 1), DiscontinuityKey(1, 1, 1)}
  {
    var params := LayoutParams(1, [1], [1]);
    assert SigIndices(1, 1, 1) == [BiasIndex(1, 1, 1)];
    assert SatIndices(1, 1, 1) == [BiasIndex(1, 1, 1)];
    assert SystemsLayout(1, [1], [1]).indices == [BiasIndex(1, 1, 1)];
    assert params == [ValidityParam(), PhaseBiasParam(BiasIndex(1, 1, 1)), DiscontinuityParam(BiasIndex(1, 1, 1))] by {
      assert [BiasIndex(1, 1, 1)][..0] == [];
    }
    assert params[0].key == ValidityIntervalKey && params[1].key == PhaseBiasKey(1, 1, 1) && params[2].key == DiscontinuityKey(1, 1, 1);
  }

  /**
   * The decoder as written reads `pb sys1 sat2 sig1`, a field that was never
   * declared, and fails on a message holding every declared field; the corrected
   * decoder reads `pb sys1 sat1 sig1` and decodes it.
   */
  lemma AsWrittenReadsUndeclaredKey()
    ensures PhaseBiasKey(1, 2, 1) !in DeclaredKeys(1, [1], [1])
    ensures DeclaredKeys(1, [1], [1]) <= FindingMessage().Keys
    ensures SystemBlock(FindingMessage(), 1, ByPosition) == Err(KeyError(PhaseBiasKey(1, 2, 1)))
  {
    FindingDeclaredKeys();
    var satMask := [false, true];
    assert satMask[..1] == [false] && [false][..0] == [] && [true][..0] == [];
  }

  /** The corrected decoder decodes the same message: satellite 2 with its one signal, `L1C/A`. */
  lemma CorrectedDecodesFindingMessage()
    ensures SystemBlock(FindingMessage(), 1, BySetBit)
      == Ok(SystemBiases("GPS", [SatelliteBiases(2, [SignalBias("L1C/A", 7, 0)])]))
  {
    var satMask := [false, true];
    var msg := FindingMessage();
    assert [false][..0] == [];
    assert SignalTable(GpsId) == Some(GpsSignals);
    assert msg[PhaseBiasKey(1, 1, 1)].decimal == 7 && msg[DiscontinuityKey(1, 1, 1)].decimal == 0;
    assert GpsSignals[0] == "L1C/A";
    assert SignalEntry(msg, 1, GpsId, 1, 1, 1) == Ok(SignalBias("L1C/A", 7, 0));
    var sigMask := [true];
    assert sigMask[..|sigMask| - 1] == [];
    assert SignalEntries(msg, 1, GpsId, 1, sigMask[..|sigMask| - 1]) == Ok([]);
    assert [] + [SignalBias("L1C/A", 7, 0)] == [SignalBias("L1C/A", 7, 0)];
    assert SignalEntries(msg, 1, GpsId, 1, sigMask) == Ok([SignalBias("L1C/A", 7, 0)]);
    assert satMask[..|satMask| - 1] == [false];
    assert SatelliteRecords(msg, 1, GpsId, sigMask, BySetBit, [false]) == Ok([]);
    var sat2 := SatelliteBiases(2, [SignalBias("L1C/A", 7, 0)]);
    assert [] + [sat2] == [sat2];
    assert SatelliteRecords(msg, 1, GpsId, sigMask, BySetBit, satMask) == Ok([sat2]);
    assert msg[GnssIdKey(1)].decimal == GpsId && msg[SatelliteMaskKey(1)].binary == satMask && msg[SignalMaskKey(1)].binary == sigMask;
  }

  /**
   * The same message through `phase`: as written it raises the `KeyError` for
   * `pb sys1 sat2 sig1`; the corrected decoder returns its one block.
   */
  lemma AsWrittenPhaseFails()
    ensures PhaseBiasesOf(FindingMessage(), ByPosition) == Err(KeyError(PhaseBiasKey(1, 2, 1)))
    ensures PhaseBiasesOf(FindingMessage(), BySetBit)
      == Ok(PhaseBiases(0, [SystemBiases("GPS", [SatelliteBiases(2, [SignalBias("L1C/A", 7, 0)])])]))
  {
    AsWrittenReadsUndeclaredKey();
    CorrectedDecodesFindingMessage();
    var msg := FindingMessage();
    assert msg[NSysKey].decimal == 1 && msg[ValidityIntervalKey].decimal == 0;
    assert Blocks(msg, 0, BySetBit) == Ok([]);
    assert [] + [SystemBiases("GPS", [SatelliteBiases(2, [SignalBias("L1C/A", 7, 0)])])]
      == [SystemBiases("GPS", [SatelliteBiases(2, [SignalBias("L1C/A", 7, 0)])])];
  }
}
