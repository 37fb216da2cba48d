/** The audience of an event: the form's de-duplication and the comparison with the stored audience. */
module Audiences {
  import opened Text
  import opened Sorting

  type Id = nat

  /** The de-duplication loop of the event form: malformed and repeated values are errors and are left out. */
  method Selected(raw: seq<Option<Id>>) returns (ids: seq<Id>, errors: nat)
    ensures Distinct(ids) && (forall x :: x in ids <==> Some(x) in raw)
    ensures errors == |raw| - |ids|
  {
    ids, errors := [], 0;
    var seen: set<Id> := {};
    var i := 0;
    while i < |raw|
      invariant i <= |raw| && seen == Elements(ids) && errors == i - |ids|
      invariant Distinct(ids) && forall x :: x in ids <==> Some(x) in raw[..i]
    {
      assert raw[..i + 1] == raw[..i] + [raw[i]];
      if raw[i] == None || raw[i].value in seen {
        errors := errors + 1;
      } else {
        ids := ids + [raw[i].value];
        seen := seen + {raw[i].value};
      }
      i := i + 1;
    }
    assert raw[..i] == raw;
  }

  /** sameUUIDSet. */
  method SameIds(left: seq<Id>, right: seq<Id>) returns (same: bool)
    ensures same <==> |left| == |right| && Elements(right) <= Elements(left)
  {
    if |left| != |right| { return false; }
    var values: set<Id> := {};
    var i := 0;
    while i < |left|
      invariant i <= |left| && values == Elements(left[..i])
    {
      assert left[..i + 1] == left[..i] + [left[i]];
      values := values + {left[i]};
      i := i + 1;
    }
    assert left[..i] == left;
    i := 0;
    while i < |right|
      invariant i <= |right| && forall k :: 0 <= k < i ==> right[k] in values
    {
      if right[i] !in values {
        assert right[i] in Elements(right);
        return false;
      }
      i := i + 1;
    }
    return true;
  }

  lemma {:induction false} ElementsCount(ids: seq<Id>)
    ensures |Elements(ids)| <= |ids| && (|Elements(ids)| == |ids| <==> Distinct(ids))
  {
    if ids != [] {
      var rest, last := ids[..|ids| - 1], ids[|ids| - 1];
      ElementsCount(rest);
      assert ids == rest + [last];
      assert Elements(ids) == Elements(rest) + {last};
      if last in rest {
        var i :| 0 <= i < |rest| && rest[i] == last;
        assert ids[i] == ids[|ids| - 1];
        assert Elements(ids) == Elements(rest);
      } else {
        assert Distinct(rest) ==> Distinct(ids);
        assert Distinct(ids) ==> Distinct(rest) by {
          if Distinct(ids) { forall i, j | 0 <= i < j < |rest| ensures rest[i] != rest[j] { assert ids[i] != ids[j]; } }
        }
      }
    }
  }

  /** On a de-duplicated right side the comparison decides equality of sets, as long as the left side has no repetition. */
  lemma SameIdsMeansSetEquality(left: seq<Id>, right: seq<Id>)
    requires Distinct(right)
    ensures |left| == |right| && Elements(right) <= Elements(left) <==> Distinct(left) && Elements(left) == Elements(right)
  {
    ElementsCount(left);
    ElementsCount(right);
    if |left| == |right| && Elements(right) <= Elements(left) {
      var missing := Elements(left) - Elements(right);
      assert Elements(left) == Elements(right) + missing;
      assert |missing| == 0;
    }
  }

  /**
   * The audience check of an update: the stored identifiers are distinct, being part of a primary key, and the form's are
   * de-duplicated, so the comparison decides whether the same audience was submitted, in whatever order.
   */
  method SameAudience(stored: seq<Id>, raw: seq<Option<Id>>) returns (same: bool)
    requires Distinct(stored)
    ensures same <==> forall x :: x in stored <==> Some(x) in raw
  {
    var ids, errors := Selected(raw);
    same := SameIds(stored, ids);
    SameIdsMeansSetEquality(stored, ids);
    assert Elements(stored) == Elements(ids) <==> forall x :: x in stored <==> x in ids by { SameElements(stored, ids); }
  }

  lemma SameElements(a: seq<Id>, b: seq<Id>)
    ensures Elements(a) == Elements(b) <==> forall x :: x in a <==> x in b
  {
    if Elements(a) == Elements(b) {
      forall x ensures x in a <==> x in b { assert x in Elements(a) <==> x in Elements(b); }
    }
  }

  /**
   * The comparison alone needs both: it refuses a stored repetition of the same set, and accepts a submitted one of
   * another set. Neither input reaches it.
   */
  lemma RepetitionFoolsSameIds(a: Id, b: Id)
    requires a != b
    ensures var left, right := [a, a], [a]; |left| != |right| && Elements(left) == Elements(right)
    ensures var left, right := [a, b], [a, a];
            |left| == |right| && Elements(right) <= Elements(left) && Elements(left) != Elements(right)
  {
    assert b in Elements([a, b]) && b !in Elements([a, a]);
  }
}
