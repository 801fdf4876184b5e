/**
 Which paths are LDP targets (src/ldp/target.rs): exactly those made of clean segments, with any
 number of slashes before and after, that do not address the reserved namespace.
 */
module TargetShape {
  import opened Text
  import opened ReservedPath

  function Slashes(n: nat): string { seq(n, _ => '/') }

  predicate CleanSegment(s: string) { s != "" && s != "." && s != ".." && '/' !in s }

  predicate Clean(segments: seq<string>) { forall s :: s in segments ==> CleanSegment(s) }

  function Joined(segments: seq<string>): string { if segments == [] then "" else Join(segments, '/') }

  predicate Shape(p: string, before: nat, segments: seq<string>, after: nat) {
    before >= 1 && Clean(segments) && p == Slashes(before) + Joined(segments) + Slashes(after)
  }

  ghost predicate WellShaped(p: string) { exists before, segments, after :: Shape(p, before, segments, after) }

  lemma {:induction false} JoinOfSplit(s: string, c: char)
    ensures Join(Split(s, c), c) == s
  {
    if s != "" {
      var rest := Split(s[1..], c);
      JoinOfSplit(s[1..], c);
      assert s == [s[0]] + s[1..];
      if s[0] == c {
        assert ([""] + rest)[1..] == rest;
      } else {
        var parts := [[s[0]] + rest[0]] + rest[1..];
        assert parts[1..] == rest[1..];
        if |rest| > 1 {
          assert [s[0]] + (rest[0] + [c] + Join(rest[1..], c)) == ([s[0]] + rest[0]) + [c] + Join(rest[1..], c);
        }
      }
    }
  }

  lemma {:induction false} NoErrorMeansClean(segments: seq<string>)
    requires forall s :: s in segments ==> '/' !in s
    ensures SegmentError(segments).None? <==> Clean(segments)
  {
    if segments != [] {
      NoErrorMeansClean(segments[1..]);
      assert segments == [segments[0]] + segments[1..];
      assert Clean(segments) <==> CleanSegment(segments[0]) && Clean(segments[1..]);
    }
  }

  lemma TrimLeading(n: nat, s: string)
    requires s == "" || s[0] != '/'
    ensures TrimStartMatches(Slashes(n) + s, '/') == s
  {
    TrimSlashes(Slashes(n) + s, n);
  }

  lemma {:induction false} TrimTrailing(s: string, n: nat)
    requires s == "" || s[|s| - 1] != '/'
    ensures TrimEndMatches(s + Slashes(n), '/') == s
  {
    if n > 0 {
      TrimTrailing(s, n - 1);
      assert (s + Slashes(n))[..|s| + n - 1] == s + Slashes(n - 1);
    } else {
      assert s + Slashes(0) == s;
    }
  }

  lemma {:induction false} TrailingSlashes(s: string) returns (n: nat)
    ensures s == TrimEndMatches(s, '/') + Slashes(n)
  {
    n := 0;
    if s != "" && s[|s| - 1] == '/' {
      var k := TrailingSlashes(s[..|s| - 1]);
      n := k + 1;
      assert s == s[..|s| - 1] + "/" && Slashes(k) + "/" == Slashes(n);
    }
  }

  lemma {:induction false} JoinEnds(segments: seq<string>)
    requires segments != [] && Clean(segments)
    ensures var s := Join(segments, '/'); s != "" && s[0] != '/' && s[|s| - 1] != '/'
  {
    assert CleanSegment(segments[0]);
    if |segments| > 1 {
      assert Clean(segments[1..]);
      JoinEnds(segments[1..]);
    }
  }

  /** The code's trimming finds the segments between the outer slashes. */
  lemma ShapeIsTrimmed(p: string, before: nat, segments: seq<string>, after: nat)
    requires Shape(p, before, segments, after)
    ensures TrimEndMatches(TrimStartMatches(p, '/'), '/') == Joined(segments)
    ensures segments != [] ==> Joined(segments) != "" && Split(Joined(segments), '/') == segments
  {
    if segments == [] {
      assert p == Slashes(before + after) + "";
      TrimLeading(before + after, "");
    } else {
      JoinEnds(segments);
      var core := Joined(segments);
      assert p == Slashes(before) + (core + Slashes(after));
      TrimLeading(before, core + Slashes(after));
      TrimTrailing(core, after);
      forall s | s in segments ensures '/' !in s { assert CleanSegment(s); }
      SplitOfJoin(segments, '/');
    }
  }

  /** A path is its trimmed middle between slashes. */
  lemma PathParts(p: string) returns (before: nat, t: string, after: nat)
    requires p != "" && p[0] == '/'
    ensures before >= 1 && t == TrimEndMatches(TrimStartMatches(p, '/'), '/')
    ensures p == Slashes(before) + t + Slashes(after)
  {
    before := LeadingSlashes(p);
    TrimSlashes(p, before);
    after := TrailingSlashes(p[before..]);
    t := TrimEndMatches(p[before..], '/');
    assert p == p[..before] + p[before..];
    assert p[..before] == Slashes(before);
    assert Slashes(before) + (t + Slashes(after)) == Slashes(before) + t + Slashes(after);
  }

  lemma CleanIsShape(p: string)
    requires p != "" && p[0] == '/'
    requires var t := TrimEndMatches(TrimStartMatches(p, '/'), '/'); t == "" || Clean(Split(t, '/'))
    ensures WellShaped(p)
  {
    var before, t, after := PathParts(p);
    JoinOfSplit(t, '/');
    var segments := if t == "" then [] else Split(t, '/');
    assert Joined(segments) == t;
    assert Shape(p, before, segments, after);
  }

  /** The code's segment check passes exactly the well-shaped paths. */
  lemma CheckIsShape(p: string)
    ensures var t := TrimEndMatches(TrimStartMatches(p, '/'), '/');
            p != "" && p[0] == '/' && (t == "" || SegmentError(Split(t, '/')).None?) <==> WellShaped(p)
  {
    var t := TrimEndMatches(TrimStartMatches(p, '/'), '/');
    SplitMembers(t, '/');
    NoErrorMeansClean(Split(t, '/'));
    if WellShaped(p) {
      var before, segments, after :| Shape(p, before, segments, after);
      ShapeIsTrimmed(p, before, segments, after);
    }
    if p != "" && p[0] == '/' && (t == "" || Clean(Split(t, '/'))) {
      CleanIsShape(p);
    }
  }

  /** A target is accepted exactly when the base is not empty, the path is well shaped and it does
      not address the reserved namespace; its address is the path below the base, and it is a
      container exactly when the path ends in a slash. */
  lemma AcceptanceIsExact(base: string, path: string)
    ensures var origin, p := TrimEndMatches(base, '/'), PathOnly(path);
            && (ParseTarget(base, path).Ok? <==> origin != "" && WellShaped(p) && !Addresses(p))
            && (ParseTarget(base, path).Ok? ==>
                  var t := ParseTarget(base, path).value;
                  t.iri == t.htu == origin + p && p != "" && (t.isContainer <==> p[|p| - 1] == '/'))
  {
    RefusalIsExact(PathOnly(path));
    CheckIsShape(PathOnly(path));
  }
}
