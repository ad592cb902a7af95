/** Decoded JSON documents, as the webhook handlers see them after the HTTP
    layer (or `json.loads`) has parsed a request body.

    An object keeps its members in the order they arrived, the way a Python
    `dict` does. The handlers only ever receive Python dicts, whose names are
    distinct (`DistinctNames`); an object value with a repeated name never
    reaches them, and for such a value `Lookup` would answer with the first
    member where `json.loads` keeps the last. Numbers are integers
    (floating-point numbers are not part of this model).
 */
module JsonTree {

  datatype Option<+T> = None | Some(value: T)

  datatype Json =
    | JNull
    | JBool(b: bool)
    | JInt(i: int)
    | JStr(s: string)
    | JArr(items: seq<Json>)
    | JObj(fields: seq<(string, Json)>)

  /** Python's truth value of the decoded value (`None`, `False`, `0`, `""`,
      `[]` and `{}` are false, everything else is true). */
  predicate Truthy(v: Json) {
    match v
    case JNull => false
    case JBool(b) => b
    case JInt(i) => i != 0
    case JStr(s) => s != ""
    case JArr(items) => items != []
    case JObj(fields) => fields != []
  }

  /** No element occurs twice. */
  predicate NoDup<T(==)>(xs: seq<T>) {
    forall i, j :: 0 <= i < j < |xs| ==> xs[i] != xs[j]
  }

  lemma NoDupTail<T>(xs: seq<T>)
    requires NoDup(xs) && |xs| > 0
    ensures NoDup(xs[1..]) && xs[0] !in xs[1..]
  {
    var tail := xs[1..];
    forall i, j | 0 <= i < j < |tail| ensures tail[i] != tail[j] {
      assert tail[i] == xs[i + 1] && tail[j] == xs[j + 1];
    }
  }

  /** The member names of an object, in order. */
  function Names(fields: seq<(string, Json)>): (r: seq<string>)
    ensures |r| == |fields|
    ensures forall i :: 0 <= i < |fields| ==> r[i] == fields[i].0
  {
    seq(|fields|, i requires 0 <= i < |fields| => fields[i].0)
  }

  /** The member names of an object are pairwise distinct, as in any `dict`. */
  predicate DistinctNames(fields: seq<(string, Json)>) {
    NoDup(Names(fields))
  }

  lemma DistinctNamesTail(fields: seq<(string, Json)>)
    requires DistinctNames(fields) && |fields| > 0
    ensures DistinctNames(fields[1..])
  {
    NoDupTail(Names(fields));
    assert Names(fields[1..]) == Names(fields)[1..];
  }

  /** `dict.get(name)`: the value of the first member called `name`, or
      `None` when the object has no such member. */
  function Lookup(fields: seq<(string, Json)>, name: string): (r: Option<Json>)
    ensures r.None? <==> forall i :: 0 <= i < |fields| ==> fields[i].0 != name
    ensures r.Some? ==> (name, r.value) in fields
  {
    if |fields| == 0 then None
    else if fields[0].0 == name then Some(fields[0].1)
    else
      var rest := Lookup(fields[1..], name);
      assert forall i :: 1 <= i < |fields| ==> fields[i] == fields[1..][i - 1];
      rest
  }

  /** In an object with distinct names, `get` finds exactly the member that
      is there: a member (name, v) is present iff the lookup yields v. */
  lemma {:induction false} LookupFindsMember(fields: seq<(string, Json)>, name: string, v: Json)
    requires DistinctNames(fields)
    ensures Lookup(fields, name) == Some(v) <==> (name, v) in fields
  {
    if |fields| > 0 && fields[0].0 != name {
      var tail := fields[1..];
      DistinctNamesTail(fields);
      LookupFindsMember(tail, name, v);
      assert (name, v) in fields <==> (name, v) in tail by {
        assert fields == [fields[0]] + tail;
      }
    } else if |fields| > 0 {
      if (name, v) in fields {
        var k :| 0 <= k < |fields| && fields[k] == (name, v);
        assert Names(fields)[k] == Names(fields)[0];
        assert k == 0;
      }
    }
  }
}
