/** String helpers with the meaning Rust's `str` methods give them. */
module Text {

  datatype Option<+T> = None | Some(value: T)

  /** The Unicode White_Space property, which is what `trim` strips. */
  predicate IsWhitespace(c: char) {
    || '\t' <= c <= '\r'
    || c in {' ', '\U{0085}', '\U{00A0}', '\U{1680}', '\U{2028}', '\U{2029}', '\U{202F}', '\U{205F}', '\U{3000}'}
    || '\U{2000}' <= c <= '\U{200A}'
  }

  function TrimStart(s: string): string {
    if s != "" && IsWhitespace(s[0]) then TrimStart(s[1..]) else s
  }

  function TrimEnd(s: string): string {
    if s != "" && IsWhitespace(s[|s| - 1]) then TrimEnd(s[..|s| - 1]) else s
  }

  function Trim(s: string): string { TrimEnd(TrimStart(s)) }

  /** A string with no whitespace at either end is left alone. */
  lemma TrimFixed(s: string)
    requires s == "" || (!IsWhitespace(s[0]) && !IsWhitespace(s[|s| - 1]))
    ensures Trim(s) == s
  {
  }

  /** `split(c)`: the maximal runs free of `c`, always at least one. */
  function Split(s: string, c: char): (parts: seq<string>)
    ensures |parts| >= 1
  {
    if s == "" then [""]
    else if s[0] == c then [""] + Split(s[1..], c)
    else
      var rest := Split(s[1..], c);
      [[s[0]] + rest[0]] + rest[1..]
  }

  lemma SplitStep(s: string, c: char)
    requires s != "" && s[0] != c
    ensures Split(s, c) == [[s[0]] + Split(s[1..], c)[0]] + Split(s[1..], c)[1..]
  {
  }

  lemma ExtendFirst(ch: char, x: seq<string>, y: seq<string>)
    requires x != []
    ensures [[ch] + (x + y)[0]] + (x + y)[1..] == ([[ch] + x[0]] + x[1..]) + y
  {
    assert (x + y)[1..] == x[1..] + y;
  }

  /** Splitting undoes joining with the separator. */
  lemma {:induction false} SplitJoin(a: string, b: string, c: char)
    ensures Split(a + [c] + b, c) == Split(a, c) + Split(b, c)
  {
    var s := a + [c] + b;
    if a == "" {
      assert s[0] == c && s[1..] == b;
    } else {
      assert s[0] == a[0] && s[1..] == a[1..] + [c] + b;
      SplitJoin(a[1..], b, c);
      if a[0] != c {
        SplitStep(s, c);
        ExtendFirst(a[0], Split(a[1..], c), Split(b, c));
      } else {
        assert [""] + (Split(a[1..], c) + Split(b, c)) == ([""] + Split(a[1..], c)) + Split(b, c);
      }
    }
  }

  lemma {:induction false} SplitWithout(s: string, c: char)
    requires c !in s
    ensures Split(s, c) == [s]
  {
    if s != "" { SplitWithout(s[1..], c); assert s == [s[0]] + s[1..]; }
  }

  lemma {:induction false} SplitMembers(s: string, c: char)
    ensures forall p :: p in Split(s, c) ==> c !in p
    ensures |Split(s, c)| == 1 ==> c !in s && Split(s, c)[0] == s
  {
    if s != "" { SplitMembers(s[1..], c); }
  }

  function Join(parts: seq<string>, c: char): string
    requires |parts| >= 1
  {
    if |parts| == 1 then parts[0] else parts[0] + [c] + Join(parts[1..], c)
  }

  lemma {:induction false} SplitOfJoin(parts: seq<string>, c: char)
    requires |parts| >= 1
    requires forall p :: p in parts ==> c !in p
    ensures Split(Join(parts, c), c) == parts
  {
    SplitWithout(parts[0], c);
    if |parts| > 1 {
      SplitOfJoin(parts[1..], c);
      SplitJoin(parts[0], Join(parts[1..], c), c);
    }
  }

  predicate IsAsciiDigit(c: char) { '0' <= c <= '9' }

  function AsciiLower(c: char): char {
    if 'A' <= c <= 'Z' then ((c as int) + 32) as char else c
  }

  predicate EqIgnoreAsciiCase(a: string, b: string) {
    |a| == |b| && forall i :: 0 <= i < |a| ==> AsciiLower(a[i]) == AsciiLower(b[i])
  }

  /** The place of the first `c`, or the length. */
  function IndexOf(s: string, c: char): nat {
    if s == "" || s[0] == c then 0 else 1 + IndexOf(s[1..], c)
  }

  lemma {:induction false} IndexOfProps(s: string, c: char)
    ensures IndexOf(s, c) <= |s|
    ensures c !in s[..IndexOf(s, c)]
    ensures c in s ==> IndexOf(s, c) < |s| && s[IndexOf(s, c)] == c
  {
    if s != "" && s[0] != c {
      IndexOfProps(s[1..], c);
      var k := IndexOf(s[1..], c);
      assert s[..k + 1] == [s[0]] + s[1..][..k];
    }
  }

  lemma {:induction false} SplitFirst(s: string, c: char)
    ensures IndexOf(s, c) <= |s| && Split(s, c)[0] == s[..IndexOf(s, c)]
  {
    if s != "" && s[0] != c {
      SplitFirst(s[1..], c);
      assert s[..IndexOf(s, c)] == [s[0]] + s[1..][..IndexOf(s[1..], c)];
    }
  }

  /** `trim_start_matches(c)` and `trim_end_matches(c)`. */
  function TrimStartMatches(s: string, c: char): string {
    if s != "" && s[0] == c then TrimStartMatches(s[1..], c) else s
  }

  function TrimEndMatches(s: string, c: char): string {
    if s != "" && s[|s| - 1] == c then TrimEndMatches(s[..|s| - 1], c) else s
  }
}
