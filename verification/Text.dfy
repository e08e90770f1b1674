/** The string routines of the Go library that the modelled code relies on. */
module Text {
  /** White space as the Unicode property of that name. */
  predicate IsSpace(c: char) {
    || c in {'\t', '\n', '\U{0B}', '\U{0C}', '\r', ' ', '\U{85}', '\U{A0}', '\U{1680}'}
    || '\U{2000}' <= c <= '\U{200A}'
    || c in {'\U{2028}', '\U{2029}', '\U{202F}', '\U{205F}', '\U{3000}'}
  }

  /** Non-empty and free of white space. */
  predicate Token(s: string) {
    s != [] && forall c :: c in s ==> !IsSpace(c)
  }

  function IndexOf(s: string, c: char): (k: nat)
    requires c in s
    ensures k < |s| && s[k] == c && c !in s[..k]
  {
    if s[0] == c then 0 else
      assert s == [s[0]] + s[1..];
      var k := IndexOf(s[1..], c) + 1;
      assert s[..k] == [s[0]] + s[1..][..k - 1];
      k
  }

  /** The pieces between the separators; always at least one. */
  function Split(s: string, sep: char): (parts: seq<string>)
    ensures parts != []
    decreases |s|
  {
    if sep !in s then [s]
    else
      var k := IndexOf(s, sep);
      [s[..k]] + Split(s[k + 1..], sep)
  }

  function Join(parts: seq<string>, sep: char): string {
    if parts == [] then ""
    else if |parts| == 1 then parts[0]
    else parts[0] + [sep] + Join(parts[1..], sep)
  }

  lemma SplitStep(head: string, rest: string, sep: char)
    requires sep !in head
    ensures Split(head + [sep] + rest, sep) == [head] + Split(rest, sep)
  {
    var s := head + [sep] + rest;
    assert s[|head|] == sep;
    var k := IndexOf(s, sep);
    assert s[..k] == head && s[k + 1..] == rest;
  }

  /** Splitting undoes joining. */
  lemma {:induction false} SplitJoin(parts: seq<string>, sep: char)
    requires parts != [] && forall p :: p in parts ==> sep !in p
    ensures Split(Join(parts, sep), sep) == parts
  {
    if |parts| == 1 {
      assert parts[0] in parts;
      assert Split(parts[0], sep) == [parts[0]];
    } else {
      var head, tail := parts[0], parts[1..];
      assert head in parts && forall p :: p in tail ==> p in parts;
      SplitJoin(tail, sep);
      SplitStep(head, Join(tail, sep), sep);
      assert parts == [head] + tail;
    }
  }

  function TrimLeft(s: string): string {
    if s != [] && IsSpace(s[0]) then TrimLeft(s[1..]) else s
  }

  function TrimRight(s: string): string {
    if s != [] && IsSpace(s[|s| - 1]) then TrimRight(s[..|s| - 1]) else s
  }

  function TrimSpace(s: string): string {
    TrimRight(TrimLeft(s))
  }

  function WordLength(s: string): (k: nat)
    ensures k <= |s|
    ensures s != [] && !IsSpace(s[0]) ==> k > 0
  {
    if s == [] || IsSpace(s[0]) then 0 else 1 + WordLength(s[1..])
  }

  /** The maximal runs of characters that are not white space. */
  function Fields(s: string): seq<string>
    decreases |s|
  {
    if s == [] then []
    else if IsSpace(s[0]) then Fields(s[1..])
    else
      var k := WordLength(s);
      [s[..k]] + Fields(s[k..])
  }

  lemma {:induction false} WordLengthToken(t: string, rest: string)
    requires forall c :: c in t ==> !IsSpace(c)
    requires rest == [] || IsSpace(rest[0])
    ensures WordLength(t + rest) == |t|
  {
    if t == [] {
      assert t + rest == rest;
    } else {
      assert (t + rest)[1..] == t[1..] + rest;
      WordLengthToken(t[1..], rest);
    }
  }

  lemma FieldsToken(t: string, rest: string)
    requires Token(t) && (rest == [] || IsSpace(rest[0]))
    ensures Fields(t + rest) == [t] + Fields(rest)
  {
    var s := t + rest;
    WordLengthToken(t, rest);
    assert s[0] == t[0] && t[0] in t;
    assert s[..|t|] == t && s[|t|..] == rest;
  }

  /** Two tokens with a space between are two fields. */
  lemma FieldsOfTwo(a: string, b: string)
    requires Token(a) && Token(b)
    ensures Fields(a + " " + b) == [a, b]
  {
    var rest := " " + b;
    assert a + " " + b == a + rest && b == b + [];
    FieldsToken(a, rest);
    assert rest[1..] == b;
    FieldsToken(b, []);
  }

  // ---- Trimming and splitting at white space ----

  predicate AllSpace(s: string) {
    forall c :: c in s ==> IsSpace(c)
  }

  /** Empty, or separated from what comes before by white space. */
  predicate Apart(s: string) {
    s == [] || IsSpace(s[0])
  }

  lemma {:induction false} TrimLeftOf(lead: string, s: string)
    requires AllSpace(lead) && s != [] && !IsSpace(s[0])
    ensures TrimLeft(lead + s) == s
  {
    if lead == [] {
      assert lead + s == s;
    } else {
      assert lead[0] in lead && (lead + s)[1..] == lead[1..] + s;
      TrimLeftOf(lead[1..], s);
    }
  }

  /** Trimming at the end goes no further than the last character that is not white space. */
  lemma {:induction false} TrimRightOf(s: string, tail: string)
    requires s != [] && !IsSpace(s[|s| - 1])
    ensures TrimRight(s + tail) == s + TrimRight(tail)
    ensures Apart(tail) ==> Apart(TrimRight(tail))
  {
    if tail == [] {
      assert s + tail == s;
    } else if IsSpace(tail[|tail| - 1]) {
      assert (s + tail)[..|s + tail| - 1] == s + tail[..|tail| - 1];
      TrimRightOf(s, tail[..|tail| - 1]);
    }
  }

  lemma {:induction false} TrimLeftSplit(s: string) returns (lead: string)
    ensures AllSpace(lead) && s == lead + TrimLeft(s)
  {
    lead := [];
    if s != [] && IsSpace(s[0]) {
      var rest := TrimLeftSplit(s[1..]);
      lead := [s[0]] + rest;
      assert s == [s[0]] + s[1..];
    }
  }

  lemma {:induction false} TrimRightSplit(s: string) returns (trail: string)
    ensures AllSpace(trail) && s == TrimRight(s) + trail
  {
    trail := [];
    if s != [] && IsSpace(s[|s| - 1]) {
      var rest := TrimRightSplit(s[..|s| - 1]);
      trail := rest + [s[|s| - 1]];
      assert s == s[..|s| - 1] + [s[|s| - 1]];
    }
  }

  lemma {:induction false} FieldsSkip(gap: string, s: string)
    requires AllSpace(gap)
    ensures Fields(gap + s) == Fields(s)
  {
    if gap == [] {
      assert gap + s == s;
    } else {
      assert gap[0] in gap && (gap + s)[1..] == gap[1..] + s;
      FieldsSkip(gap[1..], s);
    }
  }

  /** Where the first field stands. */
  lemma {:induction false} FirstField(s: string) returns (gap: string, tail: string)
    requires Fields(s) != []
    ensures AllSpace(gap) && Token(Fields(s)[0]) && Apart(tail) && s == gap + Fields(s)[0] + tail
    decreases |s|
  {
    if IsSpace(s[0]) {
      var rest;
      rest, tail := FirstField(s[1..]);
      gap := [s[0]] + rest;
      assert s == [s[0]] + s[1..];
    } else {
      var k := WordLength(s);
      gap, tail := [], s[k..];
      WordIsToken(s);
      assert s == [] + s[..k] + s[k..];
    }
  }

  /** A word is free of white space and ends where white space or the end comes. */
  lemma {:induction false} WordIsToken(s: string)
    ensures forall c :: c in s[..WordLength(s)] ==> !IsSpace(c)
    ensures Apart(s[WordLength(s)..])
  {
    if s != [] && !IsSpace(s[0]) {
      WordIsToken(s[1..]);
      assert s[..WordLength(s)] == [s[0]] + s[1..][..WordLength(s[1..])];
      assert s[WordLength(s)..] == s[1..][WordLength(s[1..])..];
    }
  }
}
