/** JSON documents as trees of values. */
module Jsons {
  import opened Common

  /** A JSON value; an object's members, each key once. */
  datatype Json = JNull | JBool(b: bool) | JInt(i: int) | JReal(r: real) | JStr(s: string)
                | JArr(items: seq<Json>) | JObj(members: seq<Member>)
  datatype Member = Member(key: string, value: Json)

  /** How many values a value is made of. */
  function Size(j: Json): (n: nat)
    ensures n > 0
    decreases j
  {
    match j
    case JArr(items) => 1 + SizeOfItems(items)
    case JObj(members) => 1 + SizeOfMembers(members)
    case _ => 1
  }

  function SizeOfItems(items: seq<Json>): nat
    decreases items
  {
    if items == [] then 0 else SizeOfItems(items[..|items| - 1]) + Size(items[|items| - 1])
  }

  function SizeOfMembers(members: seq<Member>): nat
    decreases members
  {
    if members == [] then 0 else Size(members[0].value) + SizeOfMembers(members[1..])
  }

  function Lookup(members: seq<Member>, key: string): (v: Option<Json>)
    ensures v.Some? ==> Size(v.value) <= SizeOfMembers(members)
  {
    if members == [] then None
    else if members[0].key == key then Some(members[0].value)
    else Lookup(members[1..], key)
  }

  lemma {:induction false} LookupConcat(a: seq<Member>, b: seq<Member>, key: string)
    ensures Lookup(a + b, key) == if Lookup(a, key).Some? then Lookup(a, key) else Lookup(b, key)
  {
    if a == [] {
      assert a + b == b;
    } else {
      assert (a + b)[0] == a[0] && (a + b)[1..] == a[1..] + b;
      LookupConcat(a[1..], b, key);
    }
  }

  lemma LookupOne(k: string, v: Json, key: string)
    ensures Lookup([Member(k, v)], key) == if k == key then Some(v) else None
    ensures Lookup([], key) == None
  {}
}
