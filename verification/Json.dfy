/** JSON values as the program sees them after parsing: objects keep their key order. */
module Json {
  import opened Wrappers

  datatype Member = Member(key: string, value: Json)

  datatype Json =
    | JNull
    | JBool(b: bool)
    | JNum(n: real)
    | JStr(s: string)
    | JArr(items: seq<Json>)
    | JObj(members: seq<Member>)

  /** Property lookup; the first member of a name counts (JavaScript objects have at most one). */
  function Find(members: seq<Member>, key: string): (r: Option<Json>)
    ensures r.Some? ==> exists i | 0 <= i < |members| :: members[i] == Member(key, r.value)
    ensures r.None? <==> forall i | 0 <= i < |members| :: members[i].key != key
  {
    if members == [] then None
    else if members[0].key == key then
      assert members[0] == Member(key, members[0].value);
      Some(members[0].value)
    else
      var r := Find(members[1..], key);
      assert r.Some? ==> exists i | 0 <= i < |members| :: members[i] == Member(key, r.value) by {
        if r.Some? {
          var i :| 0 <= i < |members| - 1 && members[1..][i] == Member(key, r.value);
          assert members[i + 1] == Member(key, r.value);
        }
      }
      assert r.None? ==> forall i | 0 <= i < |members| :: members[i].key != key by {
        assert forall i | 1 <= i < |members| :: members[i] == members[1..][i - 1];
      }
      assert r.Some? ==> exists i | 0 <= i < |members| :: members[i].key == key;
      r
  }

  /** `obj[key]` on anything: values that are not objects have no such property. */
  function Get(j: Json, key: string): (r: Option<Json>)
    ensures r.Some? ==> r.value < j
  {
    if j.JObj? then Find(j.members, key) else None
  }

  function Keys(members: seq<Member>): set<string> {
    set m | m in members :: m.key
  }

  predicate IsPrimitive(j: Json) {
    j.JNull? || j.JBool? || j.JNum? || j.JStr?
  }
}
