/** `HashArrays`: the matcher applied to an ordered list of records. */
module HashArrays {
  import opened Values
  import opened Matches

  /** The items of `s` that satisfy `f`, in list order. */
  function Selected(s: seq<Entry>, f: Filter): seq<Entry>
  {
    if s == [] then []
    else (if Satisfies(s[0], f) then [s[0]] else []) + Selected(s[1..], f)
  }

  /** The items of `s` that do not satisfy `f`, in list order. */
  function Rejected(s: seq<Entry>, f: Filter): seq<Entry>
  {
    if s == [] then []
    else (if Satisfies(s[0], f) then [] else [s[0]]) + Rejected(s[1..], f)
  }

  /** `Array.prototype.reverse`, as a value. */
  function Reverse<T>(s: seq<T>): seq<T>
  {
    if s == [] then [] else [s[|s| - 1]] + Reverse(s[..|s| - 1])
  }

  /** The first item of a list, or `undefined` for an empty one. */
  function FirstOr(s: seq<Entry>): Entry
  {
    if s == [] then Missing else s[0]
  }

  /** Selection distributes over concatenation: the selected items of a list
      keep their relative order. */
  lemma {:induction false} SelectedAppend(s: seq<Entry>, t: seq<Entry>, f: Filter)
    ensures Selected(s + t, f) == Selected(s, f) + Selected(t, f)
  {
    if s == [] {
      assert s + t == t;
    } else {
      var head := if Satisfies(s[0], f) then [s[0]] else [];
      assert (s + t)[0] == s[0];
      assert (s + t)[1..] == s[1..] + t;
      assert Selected(s + t, f) == head + Selected(s[1..] + t, f);
      SelectedAppend(s[1..], t, f);
      assert Selected(s, f) == head + Selected(s[1..], f);
      assert head + (Selected(s[1..], f) + Selected(t, f)) == (head + Selected(s[1..], f)) + Selected(t, f);
    }
  }

  /** Rejection distributes over concatenation: survivors keep their relative
      order. */
  lemma {:induction false} RejectedAppend(s: seq<Entry>, t: seq<Entry>, f: Filter)
    ensures Rejected(s + t, f) == Rejected(s, f) + Rejected(t, f)
  {
    if s == [] {
      assert s + t == t;
    } else {
      var head := if Satisfies(s[0], f) then [] else [s[0]];
      assert (s + t)[0] == s[0];
      assert (s + t)[1..] == s[1..] + t;
      assert Rejected(s + t, f) == head + Rejected(s[1..] + t, f);
      RejectedAppend(s[1..], t, f);
      assert Rejected(s, f) == head + Rejected(s[1..], f);
      assert head + (Rejected(s[1..], f) + Rejected(t, f)) == (head + Rejected(s[1..], f)) + Rejected(t, f);
    }
  }

  /** Each item is selected as many times as it occurs when it matches, and not
      at all otherwise; rejection is the complement. */
  lemma {:induction false} SelectedCount(s: seq<Entry>, f: Filter, x: Entry)
    ensures multiset(Selected(s, f))[x] == if Satisfies(x, f) then multiset(s)[x] else 0
    ensures multiset(Rejected(s, f))[x] == if Satisfies(x, f) then 0 else multiset(s)[x]
  {
    if s != [] {
      var head, tail := s[0], s[1..];
      assert s == [head] + tail;
      assert multiset(s)[x] == multiset([head])[x] + multiset(tail)[x];
      var sel := if Satisfies(head, f) then [head] else [];
      var rej := if Satisfies(head, f) then [] else [head];
      assert Selected(s, f) == sel + Selected(tail, f);
      assert Rejected(s, f) == rej + Rejected(tail, f);
      SelectedCount(tail, f, x);
      assert multiset(Selected(s, f))[x] == multiset(sel)[x] + multiset(Selected(tail, f))[x];
      assert multiset(Rejected(s, f))[x] == multiset(rej)[x] + multiset(Rejected(tail, f))[x];
    }
  }

  /** Selection and rejection split a list: together they hold every item
      exactly as often as the list does. */
  lemma SelectedRejectedPartition(s: seq<Entry>, f: Filter)
    ensures multiset(Selected(s, f)) + multiset(Rejected(s, f)) == multiset(s)
  {
    forall x
      ensures (multiset(Selected(s, f)) + multiset(Rejected(s, f)))[x] == multiset(s)[x]
    {
      SelectedCount(s, f, x);
    }
  }

  /** When item `k` is the first one to match, it heads the selection. */
  lemma {:induction false} SelectedFirst(s: seq<Entry>, f: Filter, k: nat)
    requires k < |s| && Satisfies(s[k], f)
    requires forall j :: 0 <= j < k ==> !Satisfies(s[j], f)
    ensures Selected(s, f) != [] && Selected(s, f)[0] == s[k]
  {
    if k > 0 {
      SelectedFirst(s[1..], f, k - 1);
    }
  }

  /** A one-item list is selected or rejected whole. */
  lemma Singleton(x: Entry, f: Filter)
    ensures Selected([x], f) == if Satisfies(x, f) then [x] else []
    ensures Rejected([x], f) == if Satisfies(x, f) then [] else [x]
  {
    assert [x][1..] == [];
  }

  /** Reversing after appending puts the new item first. */
  lemma ReverseSnoc<T>(s: seq<T>, x: T)
    ensures Reverse(s + [x]) == [x] + Reverse(s)
  {
    assert (s + [x])[..|s|] == s;
  }

  /** `HashArrays.find`: every matching item, in list order. */
  method Find(a: seq<Entry>, f: Filter) returns (r: seq<Entry>)
    ensures r == Selected(a, f)
  {
    r := [];
    var i := 0;
    while i < |a|
      invariant 0 <= i <= |a|
      invariant r == Selected(a[..i], f)
    {
      var m := Match(a[i], f);
      SelectedSnoc(a, i, f);
      if m {
        r := r + [a[i]];
      }
      i := i + 1;
    }
    assert a[..|a|] == a;
  }

  /** One step of a forward walk: extending the prefix by item `i` extends
      its selection by that item exactly when it matches. */
  lemma SelectedSnoc(a: seq<Entry>, i: nat, f: Filter)
    requires i < |a|
    ensures Selected(a[..i + 1], f) == Selected(a[..i], f) + (if Satisfies(a[i], f) then [a[i]] else [])
  {
    assert a[..i + 1] == a[..i] + [a[i]];
    SelectedAppend(a[..i], [a[i]], f);
    Singleton(a[i], f);
  }

  /** `HashArrays.findOnce`: the first matching item, or `undefined` when none
      matches. A matching `undefined` element is returned as it is, so the two
      outcomes look alike to the caller. */
  method FindOnce(a: seq<Entry>, f: Filter) returns (r: Entry)
    ensures r == FirstOr(Selected(a, f))
    ensures (forall j :: 0 <= j < |a| ==> !Satisfies(a[j], f)) ==> r == Missing
  {
    r := Missing;
    var i := 0;
    while i < |a|
      invariant 0 <= i <= |a|
      invariant forall j :: 0 <= j < i ==> !Satisfies(a[j], f)
    {
      var m := Match(a[i], f);
      if m {
        SelectedFirst(a, f, i);
        r := a[i];
        return;
      }
      i := i + 1;
    }
    NoneSelected(a, f);
  }

  /** A list none of whose items matches selects nothing. */
  lemma {:induction false} NoneSelected(s: seq<Entry>, f: Filter)
    requires forall j :: 0 <= j < |s| ==> !Satisfies(s[j], f)
    ensures Selected(s, f) == []
    ensures Rejected(s, f) == s
  {
    if s != [] {
      NoneSelected(s[1..], f);
    }
  }

  /** `HashArrays.remove`: walks the list backwards, splicing out each matching
      item and collecting it, then reverses the collection. The list left
      behind holds exactly the non-matching items and the result exactly the
      matching ones, both in their original order. */
  method Remove(a: seq<Entry>, f: Filter) returns (rest: seq<Entry>, removed: seq<Entry>)
    ensures rest == Rejected(a, f)
    ensures removed == Selected(a, f)
  {
    var list := a;
    var result: seq<Entry> := [];
    ghost var kept: seq<Entry> := [];
    var i := |a|;
    while i > 0
      invariant 0 <= i <= |a|
      invariant kept == Rejected(a[i..], f)
      invariant list == a[..i] + kept
      invariant Reverse(result) == Selected(a[i..], f)
    {
      i := i - 1;
      Unfold(a, i, f);
      assert list == a[..i] + ([a[i]] + kept);
      var item := list[i];
      var m := Match(item, f);
      if m {
        ReverseSnoc(result, item);
        result := result + [item];
        assert list[..i] == a[..i] && list[i + 1..] == kept;
        list := list[..i] + list[i + 1..];
      } else {
        kept := [item] + kept;
      }
    }
    assert a[0..] == a;
    rest, removed := list, Reverse(result);
  }

  /** One step of a backward walk: the suffix from `i` is item `i` followed
      by the suffix from `i + 1`. */
  lemma Unfold(a: seq<Entry>, i: nat, f: Filter)
    requires i < |a|
    ensures a[..i + 1] == a[..i] + [a[i]]
    ensures Selected(a[i..], f) == (if Satisfies(a[i], f) then [a[i]] else []) + Selected(a[i + 1..], f)
    ensures Rejected(a[i..], f) == (if Satisfies(a[i], f) then [] else [a[i]]) + Rejected(a[i + 1..], f)
  {
    assert a[i..][0] == a[i] && a[i..][1..] == a[i + 1..];
  }
}
