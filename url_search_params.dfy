/**
 * The part of the URLSearchParams interface of the WHATWG URL Standard that
 * the dashboard uses: an ordered list of name-value pairs, `get(name)` and
 * `set(name, value)`.
 */
module UrlSearchParams {

  import opened Wrappers

  type Pair = (string, string)

  predicate HasName(list: seq<Pair>, name: string)
  {
    exists i :: 0 <= i < |list| && list[i].0 == name
  }

  lemma HasNameAppend(a: seq<Pair>, b: seq<Pair>, name: string)
    ensures HasName(a + b, name) <==> HasName(a, name) || HasName(b, name)
  {
    if HasName(a + b, name) {
      var i :| 0 <= i < |a + b| && (a + b)[i].0 == name;
      if i >= |a| {
        assert b[i - |a|].0 == name;
      }
    }
    if HasName(a, name) {
      var i :| 0 <= i < |a| && a[i].0 == name;
      assert (a + b)[i].0 == name;
    }
    if HasName(b, name) {
      var i :| 0 <= i < |b| && b[i].0 == name;
      assert (a + b)[|a| + i].0 == name;
    }
  }

  /** `get(name)`: the value of the first pair called `name`, or null. */
  function GetFirst(list: seq<Pair>, name: string): (r: Option<string>)
    ensures r.None? <==> !HasName(list, name)
    ensures r.Some? ==> (name, r.value) in list
    decreases |list|
  {
    if list == [] then None
    else if list[0].0 == name then Some(list[0].1)
    else
      var r := GetFirst(list[1..], name);
      assert HasName(list, name) ==> HasName(list[1..], name) by {
        if HasName(list, name) {
          var i :| 0 <= i < |list| && list[i].0 == name;
          assert list[1..][i - 1].0 == name;
        }
      }
      r
  }

  /** `get` on a concatenation looks in the second part only when the first has no such name. */
  lemma {:induction false} GetFirstAppend(a: seq<Pair>, b: seq<Pair>, name: string)
    ensures GetFirst(a + b, name) == if HasName(a, name) then GetFirst(a, name) else GetFirst(b, name)
    decreases |a|
  {
    if a != [] {
      assert (a + b)[1..] == a[1..] + b;
      GetFirstAppend(a[1..], b, name);
      if a[0].0 != name && HasName(a, name) {
        var i :| 0 <= i < |a| && a[i].0 == name;
        assert a[1..][i - 1].0 == name;
      }
    } else {
      assert a + b == b;
    }
  }

  /** The list without any pair called `name`. */
  function RemoveAll(list: seq<Pair>, name: string): (r: seq<Pair>)
    ensures !HasName(r, name)
    ensures forall other :: other != name ==> GetFirst(r, other) == GetFirst(list, other)
    decreases |list|
  {
    if list == [] then []
    else if list[0].0 == name then RemoveAll(list[1..], name)
    else [list[0]] + RemoveAll(list[1..], name)
  }

  /**
   * `set(name, value)`: when the list has pairs called `name`, the first one
   * takes the new value and the others are removed; otherwise the pair is
   * appended.
   */
  function SetPair(list: seq<Pair>, name: string, value: string): (r: seq<Pair>)
    ensures GetFirst(r, name) == Some(value)
    ensures !HasName(list, name) ==> r == list + [(name, value)]
    decreases |list|
  {
    if list == [] then [(name, value)]
    else if list[0].0 == name then [(name, value)] + RemoveAll(list[1..], name)
    else
      var r := [list[0]] + SetPair(list[1..], name, value);
      assert !HasName(list, name) ==> !HasName(list[1..], name) by {
        if HasName(list[1..], name) {
          var i :| 0 <= i < |list[1..]| && list[1..][i].0 == name;
          assert list[i + 1].0 == name;
        }
      }
      r
  }

  /** `set(name, value)` leaves `get` of every other name as it was. */
  lemma {:induction false} SetPairKeepsOthers(list: seq<Pair>, name: string, value: string, other: string)
    requires other != name
    ensures GetFirst(SetPair(list, name, value), other) == GetFirst(list, other)
    decreases |list|
  {
    if list != [] && list[0].0 != name {
      SetPairKeepsOthers(list[1..], name, value, other);
    }
  }

  /** A URLSearchParams object, whose list `set` updates in place. */
  class SearchParams {

    var list: seq<Pair>

    /** `new URLSearchParams()`. */
    constructor ()
      ensures list == []
    {
      list := [];
    }

    /** `params.set(name, value)`. */
    method Set(name: string, value: string)
      modifies this
      ensures list == SetPair(old(list), name, value)
      ensures GetFirst(list, name) == Some(value)
      ensures !HasName(old(list), name) ==> list == old(list) + [(name, value)]
    {
      list := SetPair(list, name, value);
    }
  }
}
