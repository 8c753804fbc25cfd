/**
  The JSON document model the generated commands store their parameters in
  (a rapidjson document). A command's document is an object: an ORDERED list
  of (key, node) members. rapidjson's AddMember appends without looking for an
  existing key, and operator[] returns the FIRST member with the key, or a
  null node when there is none.
*/
module Json {
  import opened Wrappers

  /** The C++ `int` of the command parameters. */
  newtype int32 = x: int | -0x8000_0000 <= x < 0x8000_0000

  newtype uint64 = x: int | 0 <= x < 0x1_0000_0000_0000_0000

  /** A C++ `double`, kept as its bit pattern; no floating-point arithmetic is modelled. */
  datatype Double = Double(bits: uint64)

  datatype Value =
    | Null
    | Bool(b: bool)
    | Int(i: int)          // any JSON integer; only those within int32 pass rapidjson's IsInt
    | Number(d: Double)    // a floating-point JSON number
    | Str(s: string)
    | Array(items: seq<Value>)
    | Object(members: seq<(string, Value)>)

  type Members = seq<(string, Value)>

  /** rapidjson's IsInt: an integer node that fits in a 32-bit signed int. */
  predicate IsInt(v: Value) {
    v.Int? && -0x8000_0000 <= v.i < 0x8000_0000
  }

  /** The first member whose key is `key`, as rapidjson's FindMember returns it. */
  function Find(members: Members, key: string): (r: Option<Value>)
    ensures r.Some? ==> (key, r.value) in members
  {
    if members == [] then None
    else if members[0].0 == key then Some(members[0].1)
    else Find(members[1..], key)
  }

  /** A lookup succeeds exactly when some member has the key, and then yields the first such member. */
  lemma {:induction false} FindIsFirstMatch(members: Members, key: string)
    ensures Find(members, key).Some? <==> exists k :: 0 <= k < |members| && members[k].0 == key
    ensures Find(members, key).Some? ==>
      exists k :: 0 <= k < |members| && members[k] == (key, Find(members, key).value) && forall j :: 0 <= j < k ==> members[j].0 != key
  {
    if members != [] && members[0].0 != key {
      FindIsFirstMatch(members[1..], key);
      assert forall k :: 1 <= k < |members| ==> members[k] == members[1..][k - 1];
      if Find(members, key).Some? {
        var k' :| 0 <= k' < |members[1..]| && members[1..][k'] == (key, Find(members, key).value)
          && forall j :: 0 <= j < k' ==> members[1..][j].0 != key;
        assert members[k' + 1] == (key, Find(members, key).value);
      }
    }
  }

  /** A lookup finds the member at `k` when `k` is the first index holding the key. */
  lemma {:induction false} FindFirst(members: Members, key: string, k: nat)
    requires k < |members| && members[k].0 == key
    requires forall j :: 0 <= j < k ==> members[j].0 != key
    ensures Find(members, key) == Some(members[k].1)
  {
    if k > 0 {
      FindFirst(members[1..], key, k - 1);
    }
  }

  /** The keys of the members, in order. */
  function Keys(members: Members): (ks: seq<string>)
    ensures |ks| == |members| && forall k :: 0 <= k < |members| ==> ks[k] == members[k].0
  {
    if members == [] then [] else [members[0].0] + Keys(members[1..])
  }

  /** The members pairing each key with the node at the same index. */
  function Zip(keys: seq<string>, nodes: seq<Value>): (members: Members)
    requires |keys| == |nodes|
    ensures |members| == |keys| && forall k :: 0 <= k < |keys| ==> members[k] == (keys[k], nodes[k])
    ensures Keys(members) == keys
  {
    if keys == [] then [] else [(keys[0], nodes[0])] + Zip(keys[1..], nodes[1..])
  }

  /** In a document whose keys are all distinct, the key of member `k` finds that member. */
  lemma FindDistinct(members: Members, k: nat)
    requires forall i, j :: 0 <= i < j < |members| ==> Keys(members)[i] != Keys(members)[j]
    requires k < |members|
    ensures Find(members, members[k].0) == Some(members[k].1)
  {
    forall j | 0 <= j < k
      ensures members[j].0 != members[k].0
    {
      assert Keys(members)[j] != Keys(members)[k];
    }
    FindFirst(members, members[k].0, k);
  }

  /** In a document zipped from distinct keys, the `k`-th key looks up the `k`-th node. */
  lemma GetZip(keys: seq<string>, nodes: seq<Value>, k: nat)
    requires |keys| == |nodes| && k < |keys|
    requires forall i, j :: 0 <= i < j < |keys| ==> keys[i] != keys[j]
    ensures Get(Zip(keys, nodes), keys[k]) == nodes[k]
  {
    FindDistinct(Zip(keys, nodes), k);
  }

  /** `m_values[key]`: the first member with the key, or a null node when it is missing. */
  function Get(members: Members, key: string): Value {
    match Find(members, key)
    case Some(v) => v
    case None => Null
  }

  predicate HasKey(members: Members, key: string) {
    Find(members, key).Some?
  }

  /**
    AddMember appends. The new member is seen by a lookup only when no earlier
    member has the same key; a lookup of any other key is unaffected.
  */
  lemma {:induction false} FindAfterAddMember(members: Members, key: string, v: Value, other: string)
    ensures Find(members + [(key, v)], other) ==
      if HasKey(members, other) then Find(members, other)
      else if other == key then Some(v)
      else None
  {
    if members == [] {
      assert members + [(key, v)] == [(key, v)];
    } else {
      assert (members + [(key, v)])[1..] == members[1..] + [(key, v)];
      if members[0].0 != other {
        FindAfterAddMember(members[1..], key, v, other);
      }
    }
  }

  /** The setters' frame: adding a member leaves every other key's node unchanged. */
  lemma GetAfterAddMember(members: Members, key: string, v: Value, other: string)
    ensures other != key ==> Get(members + [(key, v)], other) == Get(members, other)
    ensures other == key ==> Get(members + [(key, v)], key) == if HasKey(members, key) then Get(members, key) else v
    ensures HasKey(members + [(key, v)], other) <==> HasKey(members, other) || other == key
  {
    FindAfterAddMember(members, key, v, other);
  }

  /** The same two facts for every other key at once, as each setter uses them. */
  lemma AddMemberFrame(members: Members, key: string, v: Value)
    ensures forall other :: other != key ==> Get(members + [(key, v)], other) == Get(members, other)
    ensures Get(members + [(key, v)], key) == if HasKey(members, key) then Get(members, key) else v
    ensures !HasKey(members, key) ==> Find(members + [(key, v)], key) == Some(v)
  {
    forall other | other != key
      ensures Get(members + [(key, v)], other) == Get(members, other)
    {
      GetAfterAddMember(members, key, v, other);
    }
    GetAfterAddMember(members, key, v, key);
    FindAfterAddMember(members, key, v, key);
  }

  /** Re-adding a key does not overwrite: the first member's node still wins. */
  lemma {:induction false} AddMemberDoesNotOverwrite(members: Members, key: string, v: Value)
    requires HasKey(members, key)
    ensures Get(members + [(key, v)], key) == Get(members, key)
    ensures |members + [(key, v)]| == |members| + 1
  {
    FindAfterAddMember(members, key, v, key);
  }
}
