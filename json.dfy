/** JSON values as the handlers see them: decoded request bodies and the
    dictionaries they return. Objects keep their members in insertion order,
    as Python dictionaries do. */
module Json {

  datatype Option<+T> = None | Some(value: T)

  datatype Value =
    | Null
    | Bool(b: bool)
    | Int(n: int)
    | Str(s: string)
    | Array(items: seq<Value>)
    | Object(members: seq<(string, Value)>)

  /** The keys of an object, in order. */
  function Keys(members: seq<(string, Value)>): seq<string>
  {
    seq(|members|, i requires 0 <= i < |members| => members[i].0)
  }

  /** `dict.get(key)`: the value stored under `key`, or None (here `Null`)
      when it is absent. A decoded object with a repeated key keeps the last
      occurrence, so the search runs from the end. */
  function Get(members: seq<(string, Value)>, key: string): Value
    decreases |members|
  {
    if |members| == 0 then Null
    else if members[|members| - 1].0 == key then members[|members| - 1].1
    else Get(members[..|members| - 1], key)
  }

  predicate DistinctKeys(members: seq<(string, Value)>)
  {
    forall i, j :: 0 <= i < j < |members| ==> members[i].0 != members[j].0
  }

  /** In an object without repeated keys, looking a member's key up gives that member's value. */
  lemma {:induction false} GetDistinct(members: seq<(string, Value)>, i: nat)
    requires DistinctKeys(members) && i < |members|
    ensures Get(members, members[i].0) == members[i].1
  {
    var n := |members| - 1;
    if i < n {
      assert members[i].0 != members[n].0;
      assert members[..n][i] == members[i];
      GetDistinct(members[..n], i);
    }
  }

  /** A key that no member carries reads as None. */
  lemma {:induction false} GetAbsent(members: seq<(string, Value)>, key: string)
    requires forall i :: 0 <= i < |members| ==> members[i].0 != key
    ensures Get(members, key) == Null
  {
    if |members| > 0 {
      var n := |members| - 1;
      assert forall i :: 0 <= i < n ==> members[..n][i] == members[i];
      GetAbsent(members[..n], key);
    }
  }
}
