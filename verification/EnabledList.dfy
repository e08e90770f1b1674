/** The persisted list of enabled module names. */
module EnabledList {
  import opened Common

  /** The list after enabling `name`: unchanged if present, otherwise appended. */
  function Add(list: seq<string>, name: string): seq<string> {
    if name in list then list else list + [name]
  }

  /** The list without any occurrence of `name`, the others in their order. */
  function Without(list: seq<string>, name: string): seq<string> {
    if list == [] then []
    else
      var front := Without(list[..|list| - 1], name);
      if list[|list| - 1] == name then front else front + [list[|list| - 1]]
  }

  lemma {:induction false} WithoutMembers(list: seq<string>, name: string)
    ensures forall n :: n in Without(list, name) <==> n in list && n != name
    ensures |Without(list, name)| <= |list|
  {
    if list != [] {
      WithoutMembers(list[..|list| - 1], name);
      assert list == list[..|list| - 1] + [list[|list| - 1]];
    }
  }

  /** Removal keeps the relative order of what stays, and how often each other name occurs. */
  lemma {:induction false} WithoutKeepsOrder(list: seq<string>, name: string)
    ensures Subsequence(Without(list, name), list)
    ensures forall n :: multiset(Without(list, name))[n] == if n == name then 0 else multiset(list)[n]
  {
    if list != [] {
      var front := list[..|list| - 1];
      WithoutKeepsOrder(front, name);
      assert list == front + [list[|list| - 1]];
      if list[|list| - 1] == name {
        SubsequenceSkip(Without(front, name), front, name);
      } else {
        SubsequenceTake(Without(front, name), front, list[|list| - 1]);
      }
    }
  }

  lemma {:induction false} WithoutKeepsDistinct(list: seq<string>, name: string)
    requires NoDuplicates(list)
    ensures NoDuplicates(Without(list, name))
  {
    if list != [] {
      var front := list[..|list| - 1];
      WithoutKeepsDistinct(front, name);
      WithoutMembers(front, name);
      assert list[|list| - 1] !in front;
    }
  }

  /** Nothing removed when the name is absent. */
  lemma {:induction false} WithoutAbsent(list: seq<string>, name: string)
    requires name !in list
    ensures Without(list, name) == list
  {
    if list != [] {
      WithoutAbsent(list[..|list| - 1], name);
      assert list == list[..|list| - 1] + [list[|list| - 1]];
    }
  }

  /** Disabling undoes enabling; enabling twice is enabling once; duplicate-free lists stay so. */
  lemma AddThenWithout(list: seq<string>, name: string)
    ensures name !in list ==> Without(Add(list, name), name) == list
    ensures Add(Add(list, name), name) == Add(list, name)
    ensures NoDuplicates(list) ==> NoDuplicates(Add(list, name))
    ensures list <= Add(list, name)
  {
    if name !in list {
      WithoutAbsent(list, name);
      assert (list + [name])[..|list + [name]| - 1] == list;
    }
  }

  /** The scan that looks for the name before appending. */
  method AddTo(list: seq<string>, name: string) returns (r: seq<string>)
    ensures r == Add(list, name)
  {
    var k := 0;
    while k < |list|
      invariant 0 <= k <= |list|
      invariant name !in list[..k]
    {
      if list[k] == name {
        return list;
      }
      k := k + 1;
    }
    assert list[..k] == list;
    r := list + [name];
  }

  /** The in-place compaction: the kept names move to the front of the same backing array,
      and the result is the length of the kept prefix. */
  method CompactInPlace(a: array<string>, name: string) returns (kept: nat)
    modifies a
    ensures kept <= a.Length
    ensures a[..kept] == Without(old(a[..]), name)
    ensures a[kept..] == old(a[kept..])
  {
    kept := 0;
    var k := 0;
    while k < a.Length
      invariant 0 <= kept <= k <= a.Length
      invariant a[..kept] == Without(old(a[..])[..k], name)
      invariant a[kept..] == old(a[kept..])
    {
      var n := a[k];
      assert n == old(a[..])[k];
      assert old(a[..])[..k + 1][..k] == old(a[..])[..k];
      if n != name {
        a[kept] := n;
        kept := kept + 1;
      }
      k := k + 1;
    }
    assert old(a[..])[..k] == old(a[..]);
  }
}
