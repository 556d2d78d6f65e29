/** Rust's `str::split(':')`: the fields between colons, empty ones included,
    so `"a::b"` gives `"a"`, `""`, `"b"` and a trailing `:` gives a final
    empty field. There is always at least one field. */
module Split {

  predicate NoColon(field: string) {
    ':' !in field
  }

  /** The inverse of splitting: the fields glued back with `:` between them. */
  function JoinColon(fields: seq<string>): string
    requires |fields| > 0
    decreases |fields|
  {
    if |fields| == 1 then fields[0] else fields[0] + [':'] + JoinColon(fields[1..])
  }

  /** The position of the first colon in `s`, or `|s|` when there is none:
      the separator search the split iterator performs. */
  function FirstColon(s: string): (k: nat)
    ensures k <= |s| && NoColon(s[..k])
    ensures k < |s| ==> s[k] == ':'
    decreases |s|
  {
    if s == [] || s[0] == ':' then 0
    else
      var k := 1 + FirstColon(s[1..]);
      assert s[..k] == [s[0]] + s[1..][..k - 1];
      k
  }

  /** A colon-free string has no first colon. */
  lemma {:induction false} FirstColonNone(x: string)
    requires NoColon(x)
    ensures FirstColon(x) == |x|
    decreases |x|
  {
    if x != [] {
      assert x[0] in x;
      assert NoColon(x[1..]) by { assert forall c :: c in x[1..] ==> c in x; }
      FirstColonNone(x[1..]);
    }
  }

  /** The first colon of `x + ":" + y` is the one after `x` when `x` has none. */
  lemma {:induction false} FirstColonAfter(x: string, y: string)
    requires NoColon(x)
    ensures FirstColon(x + [':'] + y) == |x|
    decreases |x|
  {
    var s := x + [':'] + y;
    if x == [] {
      assert s[0] == ':';
    } else {
      assert x[0] in x && s[0] == x[0];
      assert NoColon(x[1..]) by { assert forall c :: c in x[1..] ==> c in x; }
      assert s[1..] == x[1..] + [':'] + y;
      FirstColonAfter(x[1..], y);
    }
  }

  /** Cutting a string at a colon: the colon is counted once, and the prefix
      before the first colon holds none. */
  lemma CutAtColon(s: string, k: nat)
    requires k < |s| && s[k] == ':' && NoColon(s[..k])
    ensures s == s[..k] + [':'] + s[k + 1..]
    ensures multiset(s)[':'] == multiset(s[k + 1..])[':'] + 1
  {
    assert s == s[..k] + [':'] + s[k + 1..];
    assert multiset(s) == multiset(s[..k]) + multiset([':']) + multiset(s[k + 1..]);
    assert ':' !in multiset(s[..k]);
  }

  /** Splitting cuts at the first colon and continues after it; with no colon
      left, the rest is the last field. */
  function SplitColon(s: string): (fields: seq<string>)
    ensures |fields| == multiset(s)[':'] + 1
    ensures forall i :: 0 <= i < |fields| ==> NoColon(fields[i])
    ensures JoinColon(fields) == s
    decreases |s|
  {
    var k := FirstColon(s);
    if k == |s| then
      assert s[..k] == s;
      assert ':' !in multiset(s);
      [s]
    else
      var rest := SplitColon(s[k + 1..]);
      CutAtColon(s, k);
      var fields := [s[..k]] + rest;
      assert fields[1..] == rest;
      fields
  }

  /** A colon-free string is a single field. */
  lemma SplitNoColon(x: string)
    requires NoColon(x)
    ensures SplitColon(x) == [x]
  {
    FirstColonNone(x);
  }

  /** Splitting at the first colon: the colon-free prefix is the first field. */
  lemma SplitAtFirstColon(x: string, y: string)
    requires NoColon(x)
    ensures SplitColon(x + [':'] + y) == [x] + SplitColon(y)
  {
    var s := x + [':'] + y;
    FirstColonAfter(x, y);
    assert s[..|x|] == x && s[|x| + 1..] == y;
  }

  /** Splitting undoes joining colon-free fields, so together with the
      postcondition of `SplitColon` the two are mutually inverse. */
  lemma {:induction false} SplitJoinRoundTrip(fields: seq<string>)
    requires |fields| > 0
    requires forall i :: 0 <= i < |fields| ==> NoColon(fields[i])
    ensures SplitColon(JoinColon(fields)) == fields
    decreases |fields|
  {
    if |fields| == 1 {
      SplitNoColon(fields[0]);
    } else {
      SplitJoinRoundTrip(fields[1..]);
      SplitAtFirstColon(fields[0], JoinColon(fields[1..]));
      assert [fields[0]] + fields[1..] == fields;
    }
  }

  /** An inner empty field is kept: `"a::b"` has three fields. */
  lemma SplitInnerEmptyField()
    ensures SplitColon("a::b") == ["a", "", "b"]
  {
    var fields := ["a", "", "b"];
    assert JoinColon(fields[2..]) == "b";
    assert JoinColon(fields[1..]) == ":b";
    assert JoinColon(fields) == "a::b";
    SplitJoinRoundTrip(fields);
  }

  /** A trailing colon yields a final empty field. */
  lemma SplitTrailingColon()
    ensures SplitColon("a:") == ["a", ""]
  {
    var fields := ["a", ""];
    assert JoinColon(fields[1..]) == "";
    assert JoinColon(fields) == "a:";
    SplitJoinRoundTrip(fields);
  }
}
