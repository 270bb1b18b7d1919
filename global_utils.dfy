/** JSON values and the recursive key search of the global utilities, plus
    the `fail` helper that turns a rejected reply into an error. */
module GlobalUtils {
  import opened Types

  /** A decoded JSON value; object members keep their order. */
  datatype Json =
    | Null
    | Bool(b: bool)
    | Num(n: int)
    | Str(s: string)
    | Arr(items: seq<Json>)
    | Obj(members: seq<Member>)

  datatype Member = Member(key: string, value: Json)

  /** `get_json_value(data, key)`: every value found under `key`, in the order
      a depth-first walk meets them. A member whose key matches yields its
      value, which is not searched further; any other member's value is
      searched; list items are searched in turn; scalars yield nothing. */
  function GetJsonValue(data: Json, key: string): seq<Json>
    decreases data, 1
  {
    match data
    case Obj(members) => FromMembers(members, key)
    case Arr(items) => FromItems(items, key)
    case _ => []
  }

  /** The results of the items of a list, concatenated in order. */
  function FromItems(items: seq<Json>, key: string): seq<Json>
    decreases items, 0
  {
    if items == [] then [] else GetJsonValue(items[0], key) + FromItems(items[1..], key)
  }

  /** The results of the members of an object, concatenated in order. */
  function FromMembers(members: seq<Member>, key: string): seq<Json>
    decreases members, 0
  {
    if members == [] then []
    else
      var m := members[0];
      (if m.key == key then [m.value] else GetJsonValue(m.value, key)) + FromMembers(members[1..], key)
  }

  /** `v` is the value of some member, at any depth of `data`, whose key is `key`. */
  ghost predicate Occurs(data: Json, key: string, v: Json)
    decreases data
  {
    match data
    case Obj(ms) =>
      exists j :: 0 <= j < |ms| && ((ms[j].key == key && ms[j].value == v) || Occurs(ms[j].value, key, v))
    case Arr(xs) => exists j :: 0 <= j < |xs| && Occurs(xs[j], key, v)
    case _ => false
  }

  /** Some member at any depth of `data` has the key `key`. */
  ghost predicate Mentions(data: Json, key: string)
    decreases data
  {
    match data
    case Obj(ms) => exists j :: 0 <= j < |ms| && (ms[j].key == key || Mentions(ms[j].value, key))
    case Arr(xs) => exists j :: 0 <= j < |xs| && Mentions(xs[j], key)
    case _ => false
  }

  /** Every value the search yields is filed under `key` somewhere in `data`. */
  lemma {:induction false} GetJsonValueSound(data: Json, key: string)
    ensures forall v :: v in GetJsonValue(data, key) ==> Occurs(data, key, v)
    decreases data, 1
  {
    match data
    case Obj(ms) => FromMembersSound(ms, key);
    case Arr(xs) => FromItemsSound(xs, key);
    case _ =>
  }

  lemma {:induction false} FromItemsSound(xs: seq<Json>, key: string)
    ensures forall v :: v in FromItems(xs, key) ==> exists j :: 0 <= j < |xs| && Occurs(xs[j], key, v)
    decreases xs, 0
  {
    if xs != [] {
      GetJsonValueSound(xs[0], key);
      FromItemsSound(xs[1..], key);
      forall v | v in FromItems(xs, key)
        ensures exists j :: 0 <= j < |xs| && Occurs(xs[j], key, v)
      {
        if v in GetJsonValue(xs[0], key) {
          assert Occurs(xs[0], key, v);
        } else {
          assert v in FromItems(xs[1..], key);
          var j :| 0 <= j < |xs[1..]| && Occurs(xs[1..][j], key, v);
          assert Occurs(xs[j + 1], key, v);
        }
      }
    }
  }

  lemma {:induction false} FromMembersSound(ms: seq<Member>, key: string)
    ensures forall v :: v in FromMembers(ms, key) ==>
      exists j :: 0 <= j < |ms| && ((ms[j].key == key && ms[j].value == v) || Occurs(ms[j].value, key, v))
    decreases ms, 0
  {
    if ms != [] {
      GetJsonValueSound(ms[0].value, key);
      FromMembersSound(ms[1..], key);
      forall v | v in FromMembers(ms, key)
        ensures exists j :: 0 <= j < |ms| && ((ms[j].key == key && ms[j].value == v) || Occurs(ms[j].value, key, v))
      {
        var head := if ms[0].key == key then [ms[0].value] else GetJsonValue(ms[0].value, key);
        if v in head {
          assert (ms[0].key == key && ms[0].value == v) || Occurs(ms[0].value, key, v);
        } else {
          assert v in FromMembers(ms[1..], key);
          var j :| 0 <= j < |ms[1..]| &&
            ((ms[1..][j].key == key && ms[1..][j].value == v) || Occurs(ms[1..][j].value, key, v));
          assert ms[1..][j] == ms[j + 1];
        }
      }
    }
  }

  /** The search comes back empty exactly when the key occurs nowhere:
      a key that occurs yields at least its first occurrence's value, or a
      value that encloses it. */
  lemma {:induction false} GetJsonValueEmptyIff(data: Json, key: string)
    ensures GetJsonValue(data, key) == [] <==> !Mentions(data, key)
    decreases data, 1
  {
    match data
    case Obj(ms) => FromMembersEmptyIff(ms, key);
    case Arr(xs) => FromItemsEmptyIff(xs, key);
    case _ =>
  }

  lemma {:induction false} FromItemsEmptyIff(xs: seq<Json>, key: string)
    ensures FromItems(xs, key) == [] <==> !(exists j :: 0 <= j < |xs| && Mentions(xs[j], key))
    decreases xs, 0
  {
    if xs != [] {
      GetJsonValueEmptyIff(xs[0], key);
      FromItemsEmptyIff(xs[1..], key);
      if exists j :: 0 <= j < |xs| && Mentions(xs[j], key) {
        var j :| 0 <= j < |xs| && Mentions(xs[j], key);
        if j > 0 {
          assert Mentions(xs[1..][j - 1], key);
        }
      }
      if exists j :: 0 <= j < |xs[1..]| && Mentions(xs[1..][j], key) {
        var j :| 0 <= j < |xs[1..]| && Mentions(xs[1..][j], key);
        assert Mentions(xs[j + 1], key);
      }
    }
  }

  lemma {:induction false} FromMembersEmptyIff(ms: seq<Member>, key: string)
    ensures FromMembers(ms, key) == [] <==>
      !(exists j :: 0 <= j < |ms| && (ms[j].key == key || Mentions(ms[j].value, key)))
    decreases ms, 0
  {
    if ms != [] {
      GetJsonValueEmptyIff(ms[0].value, key);
      FromMembersEmptyIff(ms[1..], key);
      if exists j :: 0 <= j < |ms| && (ms[j].key == key || Mentions(ms[j].value, key)) {
        var j :| 0 <= j < |ms| && (ms[j].key == key || Mentions(ms[j].value, key));
        if j > 0 {
          assert ms[1..][j - 1] == ms[j];
        }
      }
      if exists j :: 0 <= j < |ms[1..]| && (ms[1..][j].key == key || Mentions(ms[1..][j].value, key)) {
        var j :| 0 <= j < |ms[1..]| && (ms[1..][j].key == key || Mentions(ms[1..][j].value, key));
        assert ms[1..][j] == ms[j + 1];
      }
    }
  }

  /** A list is searched item by item, in order: the result for a
      concatenation of lists is the concatenation of the results. */
  lemma {:induction false} GetJsonValueArrAppend(xs: seq<Json>, ys: seq<Json>, key: string)
    ensures GetJsonValue(Arr(xs + ys), key) == GetJsonValue(Arr(xs), key) + GetJsonValue(Arr(ys), key)
    decreases |xs|
  {
    if xs != [] {
      assert (xs + ys)[0] == xs[0];
      assert (xs + ys)[1..] == xs[1..] + ys;
      GetJsonValueArrAppend(xs[1..], ys, key);
    } else {
      assert xs + ys == ys;
    }
  }

  /** An object is searched member by member, in order: the result for a
      concatenation of member lists is the concatenation of the results. */
  lemma {:induction false} GetJsonValueObjAppend(ms: seq<Member>, ns: seq<Member>, key: string)
    ensures GetJsonValue(Obj(ms + ns), key) == GetJsonValue(Obj(ms), key) + GetJsonValue(Obj(ns), key)
    decreases |ms|
  {
    if ms != [] {
      assert (ms + ns)[0] == ms[0];
      assert (ms + ns)[1..] == ms[1..] + ns;
      GetJsonValueObjAppend(ms[1..], ns, key);
    } else {
      assert ms + ns == ns;
    }
  }

  /** A matching member yields its value as it stands: the value is not
      searched for further occurrences of the key. */
  lemma MatchingMemberNotSearched(key: string, v: Json)
    ensures GetJsonValue(Obj([Member(key, v)]), key) == [v]
  {
    var ms := [Member(key, v)];
    assert ms[1..] == [];
    assert FromMembers(ms[1..], key) == [];
    assert FromMembers(ms, key) == [v] + FromMembers(ms[1..], key);
  }

  /** A member whose key does not match is searched: it yields what its
      value yields. */
  lemma OtherMemberSearched(k: string, v: Json, key: string)
    requires k != key
    ensures GetJsonValue(Obj([Member(k, v)]), key) == GetJsonValue(v, key)
  {
    var ms := [Member(k, v)];
    assert ms[1..] == [];
    assert FromMembers(ms, key) == GetJsonValue(v, key) + FromMembers(ms[1..], key);
  }

  /** A list item yields what it yields on its own. */
  lemma ItemSearched(x: Json, key: string)
    ensures GetJsonValue(Arr([x]), key) == GetJsonValue(x, key)
  {
    var xs := [x];
    assert xs[1..] == [];
    assert FromItems(xs, key) == GetJsonValue(x, key) + FromItems(xs[1..], key);
  }

  /** A scalar yields nothing, whatever the key. */
  lemma ScalarYieldsNothing(data: Json, key: string)
    requires !data.Obj? && !data.Arr?
    ensures GetJsonValue(data, key) == []
  {
  }

  /** `fail(project_id, response)`: always an error, the "failed to update"
      error naming the project, the status and the reply text. */
  function Fail(projectId: ProjectId, reply: Reply): (r: Outcome)
    ensures r.Fail? && r.error.UpdateFailed?
    ensures r.error.project == projectId && r.error.status == reply.status && r.error.text == reply.text
  {
    Outcome.Fail(UpdateFailed(projectId, reply.status, reply.text))
  }
}
