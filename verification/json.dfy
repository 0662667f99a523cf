/** A JSON value as serde_json hands it to a derived `Deserialize` impl. The text lexer
    is not modelled: a line of text reaches the model already lexed, or as a syntax
    error. Numbers keep the distinction serde_json makes between an integer literal and
    one with a fraction or exponent, because a `u32` field accepts only the former. */
module Json {
  import opened Results

  datatype Number = IntNumber(i: int) | FloatNumber(f: real)

  datatype Json =
    | Null
    | Bool(b: bool)
    | Num(n: Number)
    | Str(s: string)
    | Arr(items: seq<Json>)
    | Obj(members: seq<(string, Json)>)

  /** The value of the first member named `key`. */
  function Lookup(members: seq<(string, Json)>, key: string): (r: Option<Json>)
    ensures r.None? <==> forall i :: 0 <= i < |members| ==> members[i].0 != key
    ensures r.Some? ==> exists i :: 0 <= i < |members| && members[i] == (key, r.value) && FirstNamed(members, key, i)
  {
    if |members| == 0 then None
    else if members[0].0 == key then
      assert FirstNamed(members, key, 0);
      Some(members[0].1)
    else
      var r := Lookup(members[1..], key);
      assert r.Some? ==> exists i :: 0 <= i < |members| && members[i] == (key, r.value) && FirstNamed(members, key, i) by {
        if r.Some? {
          var tail := members[1..];
          var i :| 0 <= i < |tail| && tail[i] == (key, r.value) && FirstNamed(tail, key, i);
          assert members[i + 1] == (key, r.value);
          assert FirstNamed(members, key, i + 1) by {
            forall j | 0 <= j < i + 1 ensures members[j].0 != key {
              if j > 0 { assert members[j] == tail[j - 1]; }
            }
          }
        }
      }
      r
  }

  /** No member before position `i` is named `key`. */
  predicate FirstNamed(members: seq<(string, Json)>, key: string, i: nat)
    requires i <= |members|
  {
    forall j :: 0 <= j < i ==> members[j].0 != key
  }

  /** No name from `fields` occurs twice among `members`. */
  ghost predicate DistinctFields(members: seq<(string, Json)>, fields: set<string>) {
    forall i, j :: 0 <= i < j < |members| && members[i].0 in fields ==> members[i].0 != members[j].0
  }

  /** When field names are distinct, the member carrying a field is the one found. */
  lemma {:induction false} LookupDistinct(members: seq<(string, Json)>, fields: set<string>, i: nat)
    requires DistinctFields(members, fields)
    requires i < |members| && members[i].0 in fields
    ensures Lookup(members, members[i].0) == Some(members[i].1)
    decreases i
  {
    if i > 0 {
      assert members[0].0 != members[i].0;
      var tail := members[1..];
      assert tail[i - 1] == members[i];
      assert DistinctFields(tail, fields) by {
        forall a, b | 0 <= a < b < |tail| && tail[a].0 in fields
          ensures tail[a].0 != tail[b].0
        {
          assert tail[a] == members[a + 1] && tail[b] == members[b + 1];
        }
      }
      LookupDistinct(tail, fields, i - 1);
    }
  }

  /** A member whose name is not `key` does not change what `key` finds. */
  lemma {:induction false} LookupAppendOther(members: seq<(string, Json)>, name: string, value: Json, key: string)
    requires name != key
    ensures Lookup(members + [(name, value)], key) == Lookup(members, key)
    decreases |members|
  {
    if |members| > 0 {
      assert (members + [(name, value)])[1..] == members[1..] + [(name, value)];
      LookupAppendOther(members[1..], name, value, key);
    }
  }
}
