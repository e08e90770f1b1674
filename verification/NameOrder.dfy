/** Module names compared as Go compares strings, and the sorted listing of a set of names. */
module NameOrder {

  /** Strictly smaller in dictionary order. */
  predicate Less(a: string, b: string) {
    b != [] && (a == [] || a[0] < b[0] || (a[0] == b[0] && Less(a[1..], b[1..])))
  }

  lemma {:induction false} LessIrreflexive(a: string)
    ensures !Less(a, a)
  {
    if a != [] {
      LessIrreflexive(a[1..]);
    }
  }

  lemma {:induction false} LessTransitive(a: string, b: string, c: string)
    requires Less(a, b) && Less(b, c)
    ensures Less(a, c)
  {
    if a != [] && a[0] == b[0] && b[0] == c[0] {
      LessTransitive(a[1..], b[1..], c[1..]);
    }
  }

  lemma {:induction false} LessTotal(a: string, b: string)
    ensures Less(a, b) || a == b || Less(b, a)
  {
    if a != [] && b != [] && a[0] == b[0] {
      LessTotal(a[1..], b[1..]);
      if a[1..] == b[1..] {
        assert a == [a[0]] + a[1..];
        assert b == [b[0]] + b[1..];
      }
    }
  }

  lemma LessAsymmetric(a: string, b: string)
    requires Less(a, b)
    ensures !Less(b, a)
  {
  }

  /** The names agree up to `k`, where `a` ends or has the smaller character. */
  predicate SmallerAt(a: string, b: string, k: nat) {
    k <= |a| && k < |b| && a[..k] == b[..k] && (k == |a| || a[k] < b[k])
  }

  /** Dictionary order: decided at the first difference, a prefix coming first. */
  lemma {:induction false} LessIff(a: string, b: string)
    ensures Less(a, b) <==> exists k: nat :: SmallerAt(a, b, k)
  {
    if b == [] {
    } else if a == [] || a[0] < b[0] {
      assert SmallerAt(a, b, 0);
    } else {
      LessIff(a[1..], b[1..]);
      forall k: nat | SmallerAt(a, b, k)
        ensures k > 0 && a[0] == b[0] && SmallerAt(a[1..], b[1..], k - 1)
      {
        assert a[..k][0] == b[..k][0];
        assert a[1..][..k - 1] == a[..k][1..] && b[1..][..k - 1] == b[..k][1..];
      }
      forall k: nat | a[0] == b[0] && SmallerAt(a[1..], b[1..], k)
        ensures SmallerAt(a, b, k + 1)
      {
        assert a[..k + 1] == [a[0]] + a[1..][..k] && b[..k + 1] == [b[0]] + b[1..][..k];
      }
    }
  }

  predicate StrictlyAscending(s: seq<string>) {
    forall i, j :: 0 <= i < j < |s| ==> Less(s[i], s[j])
  }

  /** What sorting the names of `names` must produce. */
  ghost predicate Lists(s: seq<string>, names: set<string>) {
    StrictlyAscending(s) && (forall n :: n in s <==> n in names)
  }

  /** Only one sequence lists a set: sorting has a unique answer. */
  lemma {:induction false} ListingUnique(s: seq<string>, t: seq<string>, names: set<string>)
    requires Lists(s, names) && Lists(t, names)
    ensures s == t
    decreases |s|
  {
    assert t == [] || t[0] in t;
    if s != [] {
      assert s[0] in names;
      assert s[0] in t;
      assert t[0] in names;
      assert t[0] in s;
      if s[0] != t[0] {
        LessAsymmetric(s[0], t[0]);
      }
      TailLists(s, names);
      TailLists(t, names);
      ListingUnique(s[1..], t[1..], names - {s[0]});
      assert s == [s[0]] + s[1..] && t == [t[0]] + t[1..];
    }
  }

  lemma TailLists(s: seq<string>, names: set<string>)
    requires Lists(s, names) && s != []
    ensures Lists(s[1..], names - {s[0]})
  {
    forall n
      ensures n in s[1..] <==> n in names - {s[0]}
    {
      if n in s[1..] {
        LessIrreflexive(n);
        assert n in s;
      }
      if n in names - {s[0]} {
        assert n in s;
      }
    }
  }

  /** Insert a name into an ascending listing, keeping it ascending. */
  method InsertSorted(s: seq<string>, name: string, ghost names: set<string>) returns (r: seq<string>)
    requires Lists(s, names) && name !in names
    ensures Lists(r, names + {name})
  {
    var k := 0;
    while k < |s| && Less(s[k], name)
      invariant 0 <= k <= |s|
      invariant forall i :: 0 <= i < k ==> Less(s[i], name)
    {
      k := k + 1;
    }
    if k < |s| {
      assert s[k] in names;
      LessTotal(s[k], name);
    }
    forall i | k <= i < |s|
      ensures Less(name, s[i])
    {
      if k < i {
        LessTransitive(name, s[k], s[i]);
      }
    }
    r := s[..k] + [name] + s[k..];
    assert forall n :: n in r <==> n in s || n == name;
  }

  /** The ascending listing of a set of names. */
  method SortNames(names: set<string>) returns (s: seq<string>)
    ensures Lists(s, names)
  {
    s := [];
    var todo := names;
    while todo != {}
      invariant todo <= names
      invariant Lists(s, names - todo)
      decreases |todo|
    {
      var n :| n in todo;
      s := InsertSorted(s, n, names - todo);
      assert names - todo + {n} == names - (todo - {n});
      todo := todo - {n};
    }
    assert names - {} == names;
  }

  /** Every set of names has a listing, so `Ascending` below is well defined. */
  lemma {:induction false} ListingExists(names: set<string>) returns (s: seq<string>)
    ensures Lists(s, names)
  {
    s := [];
    if names != {} {
      var n :| n in names;
      var rest := ListingExists(names - {n});
      s := InsertWitness(rest, n, names - {n});
      assert names - {n} + {n} == names;
    }
  }

  lemma {:induction false} InsertWitness(s: seq<string>, name: string, names: set<string>) returns (r: seq<string>)
    requires Lists(s, names) && name !in names
    ensures Lists(r, names + {name})
    ensures forall x :: x in r <==> x in s || x == name
  {
    if s == [] {
      r := [name];
    } else {
      assert s[0] in names;
      LessTotal(s[0], name);
      if Less(s[0], name) {
        TailLists(s, names);
        var t := InsertWitness(s[1..], name, names - {s[0]});
        r := [s[0]] + t;
        assert forall i :: 0 < i < |r| ==> r[i] == t[i - 1] && r[i] in t;
        assert forall i :: 0 < i < |r| ==> Less(r[0], r[i]);
      } else {
        forall i | 0 < i < |s|
          ensures Less(name, s[i])
        {
          LessTransitive(name, s[0], s[i]);
        }
        r := [name] + s;
      }
    }
  }

  ghost function Ascending(names: set<string>): (s: seq<string>)
    ensures Lists(s, names)
  {
    assert exists s :: Lists(s, names) by {
      var w := ListingExists(names);
    }
    var s :| Lists(s, names);
    s
  }

  function Reverse(names: seq<string>): (r: seq<string>)
    ensures |r| == |names|
    ensures forall i :: 0 <= i < |r| ==> r[i] == names[|names| - 1 - i]
  {
    seq(|names|, i requires 0 <= i < |names| => names[|names| - 1 - i])
  }

  ghost function Descending(names: set<string>): (s: seq<string>)
    ensures s == Reverse(Ascending(names))
    ensures forall n :: n in s <==> n in names
    ensures forall i, j :: 0 <= i < j < |s| ==> Less(s[j], s[i])
  {
    var a := Ascending(names);
    var s := Reverse(a);
    assert forall n | n in names :: n in s by {
      forall n | n in names
        ensures n in s
      {
        assert n in a;
        var i :| 0 <= i < |a| && a[i] == n;
        assert s[|a| - 1 - i] == n;
      }
    }
    s
  }
}
