/**
 Conditional requests (src/ldp/conditional.rs and the id-doc matcher of src/identity.rs):
 sections 8.8.3, 13.1.1, 13.1.2, 13.1.3 and 13.2.2 of RFC 9110.

 The meaning of a header is stated over the tags it *lists* (`Lists`), that is over the
 grammar's rendering of a tag, and not over the parser.
 */
module EntityTags {
  import opened Text
  import opened HttpDate

  datatype InboundTag = InboundTag(inner: string, weak: bool)
  datatype Precondition = Proceed | Failed
  datatype ReadPrecondition = Serve | NotModified

  // --- The code ------------------------------------------------------------------------------

  /** `etagc`; every byte of a non-ASCII character is obs-text. */
  predicate IsEtagc(c: char) { c == '!' || '#' <= c <= '~' || c >= '\U{0080}' }

  predicate AllEtagc(s: string) { forall i :: 0 <= i < |s| ==> IsEtagc(s[i]) }

  function StripPrefix(s: string, p: string): Option<string> {
    if p <= s then Some(s[|p|..]) else None
  }

  function StripSuffix(s: string, c: char): Option<string> {
    if s != "" && s[|s| - 1] == c then Some(s[..|s| - 1]) else None
  }

  function ParseEntityTag(raw: string): Option<InboundTag> { ParseTag(Trim(raw)) }

  function ParseTag(t: string): Option<InboundTag> {
    var weak := "W/" <= t;
    var quoted := if weak then t[2..] else t;
    match StripPrefix(quoted, "\"")
    case None => None
    case Some(body) =>
      match StripSuffix(body, '"')
      case None => None
      case Some(inner) => if AllEtagc(inner) then Some(InboundTag(inner, weak)) else None
  }

  /** The tag list of a header: its well-formed members, in order. */
  function TagList(members: seq<string>): seq<InboundTag> {
    if members == [] then []
    else
      var rest := TagList(members[1..]);
      match ParseEntityTag(members[0])
      case None => rest
      case Some(t) => [t] + rest
  }

  function Tags(header: string): seq<InboundTag> { TagList(Split(header, ',')) }

  predicate IsWildcard(header: string) { Trim(header) == "*" }

  function ParseCurrent(current: string): Option<string> {
    match ParseEntityTag(current)
    case None => None
    case Some(tag) => if tag.weak then None else Some(tag.inner)
  }

  function StatePart(inner: string): string {
    IndexOfProps(inner, '+');
    inner[..IndexOf(inner, '+')]
  }

  predicate MatchesStrongState(t: InboundTag, current: string) {
    !t.weak && ParseCurrent(current).Some? && StatePart(t.inner) == StatePart(ParseCurrent(current).value)
  }

  predicate MatchesWeakState(t: InboundTag, current: string) {
    ParseCurrent(current).Some? && StatePart(t.inner) == StatePart(ParseCurrent(current).value)
  }

  predicate MatchesWeak(t: InboundTag, current: string) {
    ParseCurrent(current) == Some(t.inner)
  }

  function Evaluate(ifMatch: Option<string>, ifNoneMatch: Option<string>, current: Option<string>): Precondition {
    var matchOk :=
      ifMatch.Some? ==>
        if IsWildcard(ifMatch.value) then current.Some?
        else current.Some? && exists t :: t in Tags(ifMatch.value) && MatchesStrongState(t, current.value);
    var noneMatched :=
      ifNoneMatch.Some? &&
        if IsWildcard(ifNoneMatch.value) then current.Some?
        else current.Some? && exists t :: t in Tags(ifNoneMatch.value) && MatchesWeakState(t, current.value);
    if !matchOk then Failed else if noneMatched then Failed else Proceed
  }

  /** Whole seconds since the epoch of a time in nanoseconds; none before the epoch. */
  function SystemTimeToUnix(nanos: int): Option<int> {
    if nanos < 0 then None else Some(nanos / 1_000_000_000)
  }

  function EvaluateRead(ifNoneMatch: Option<string>, ifModifiedSince: Option<string>, current: string,
                        lastModified: Option<int>): ReadPrecondition
  {
    match ifNoneMatch
    case Some(inm) =>
      if IsWildcard(inm) || exists t :: t in Tags(inm) && MatchesWeak(t, current) then NotModified else Serve
    case None =>
      match (ifModifiedSince, lastModified)
      case (Some(ims), Some(lm)) =>
        (match (ParseHttpDate(ims), SystemTimeToUnix(lm))
         case (Some(since), Some(at)) => if at <= since then NotModified else Serve
         case _ => Serve)
      case _ => Serve
  }

  function VariantEtag(stored: string, variant: string): string {
    match StripSuffix(stored, '"')
    case Some(head) => head + "+" + variant + "\""
    case None => stored + "+" + variant
  }

  /** The second, independent matcher: the id-doc surface's `If-None-Match`. */
  predicate IfNoneMatchHits(raw: Option<string>, etag: string) {
    raw.Some? && exists m :: m in Split(raw.value, ',') &&
                             (Trim(m) == "*" || Trim(m) == etag || StripPrefix(Trim(m), "W/") == Some(etag))
  }

  // --- What a header lists -------------------------------------------------------------------

  /** `entity-tag = [ weak ] opaque-tag`, written out. */
  function Render(inner: string, weak: bool): string {
    (if weak then "W/" else "") + "\"" + inner + "\""
  }

  predicate Lists(header: string, inner: string, weak: bool) {
    AllEtagc(inner) && exists m :: m in Split(header, ',') && Trim(m) == Render(inner, weak)
  }

  lemma ParseOfRender(inner: string, weak: bool)
    requires AllEtagc(inner)
    ensures ParseTag(Render(inner, weak)) == Some(InboundTag(inner, weak))
  {
    var t := Render(inner, weak);
    var quoted := "\"" + inner + "\"";
    if weak { assert t[2..] == quoted; } else { assert t == quoted && t[0] == '"'; }
    assert quoted[1..] == inner + "\"";
    assert (inner + "\"")[..|inner|] == inner;
  }

  lemma RenderOfParse(t: string)
    requires ParseTag(t).Some?
    ensures AllEtagc(ParseTag(t).value.inner)
    ensures t == Render(ParseTag(t).value.inner, ParseTag(t).value.weak)
  {
  }

  /** Parsing accepts exactly the rendered tags, with their strength. */
  lemma ParseIsGrammar(m: string, inner: string, weak: bool)
    ensures ParseEntityTag(m) == Some(InboundTag(inner, weak))
            <==> AllEtagc(inner) && Trim(m) == Render(inner, weak)
  {
    if AllEtagc(inner) { ParseOfRender(inner, weak); }
    if ParseTag(Trim(m)).Some? { RenderOfParse(Trim(m)); }
  }

  lemma {:induction false} TagListMembers(members: seq<string>, t: InboundTag)
    ensures t in TagList(members) <==> exists m :: m in members && ParseEntityTag(m) == Some(t)
  {
    if members != [] {
      TagListMembers(members[1..], t);
      assert forall m :: m in members <==> m == members[0] || m in members[1..];
    }
  }

  lemma TagsAreListed(header: string, inner: string, weak: bool)
    ensures InboundTag(inner, weak) in Tags(header) <==> Lists(header, inner, weak)
  {
    TagListMembers(Split(header, ','), InboundTag(inner, weak));
    forall m ensures ParseEntityTag(m) == Some(InboundTag(inner, weak))
                     <==> AllEtagc(inner) && Trim(m) == Render(inner, weak)
    {
      ParseIsGrammar(m, inner, weak);
    }
  }

  function Quote(inner: string): string { Render(inner, false) }

  lemma CurrentOfQuote(inner: string)
    requires AllEtagc(inner)
    ensures Trim(Quote(inner)) == Quote(inner) && ParseCurrent(Quote(inner)) == Some(inner)
  {
    TrimFixed(Quote(inner));
    ParseOfRender(inner, false);
  }

  /** `If-Match` on an existing resource: the wildcard, or a listed STRONG tag of the current state. */
  lemma IfMatchMeaning(h: string, current: string)
    requires AllEtagc(current)
    ensures Evaluate(Some(h), None, Some(Quote(current))) == Proceed
            <==> IsWildcard(h) || exists inner :: Lists(h, inner, false) && StatePart(inner) == StatePart(current)
  {
    CurrentOfQuote(current);
    forall inner ensures InboundTag(inner, false) in Tags(h) <==> Lists(h, inner, false) {
      TagsAreListed(h, inner, false);
    }
    if t :| t in Tags(h) && MatchesStrongState(t, Quote(current)) {
      assert t == InboundTag(t.inner, false);
      assert Lists(h, t.inner, false);
    }
    if inner :| Lists(h, inner, false) && StatePart(inner) == StatePart(current) {
      assert MatchesStrongState(InboundTag(inner, false), Quote(current));
    }
  }

  /** `If-None-Match` on a write: the wildcard, or a listed tag of the current state of EITHER strength, fails it. */
  lemma IfNoneMatchMeaning(h: string, current: string)
    requires AllEtagc(current)
    ensures Evaluate(None, Some(h), Some(Quote(current))) == Failed
            <==> IsWildcard(h) || exists inner, weak :: Lists(h, inner, weak) && StatePart(inner) == StatePart(current)
  {
    CurrentOfQuote(current);
    forall inner, weak ensures InboundTag(inner, weak) in Tags(h) <==> Lists(h, inner, weak) {
      TagsAreListed(h, inner, weak);
    }
    if t :| t in Tags(h) && MatchesWeakState(t, Quote(current)) {
      assert t == InboundTag(t.inner, t.weak);
      assert Lists(h, t.inner, t.weak);
    }
    if inner, weak :| Lists(h, inner, weak) && StatePart(inner) == StatePart(current) {
      assert MatchesWeakState(InboundTag(inner, weak), Quote(current));
    }
  }

  /** `If-None-Match` on a read: the wildcard, or exactly the served tag listed in either strength, gives 304. */
  lemma ReadMeaning(h: string, ims: Option<string>, current: string, lm: Option<int>)
    requires AllEtagc(current)
    ensures EvaluateRead(Some(h), ims, Quote(current), lm) == NotModified
            <==> IsWildcard(h) || Lists(h, current, false) || Lists(h, current, true)
  {
    CurrentOfQuote(current);
    TagsAreListed(h, current, false);
    TagsAreListed(h, current, true);
    if t :| t in Tags(h) && MatchesWeak(t, Quote(current)) {
      assert t == InboundTag(current, t.weak);
    }
    assert MatchesWeak(InboundTag(current, false), Quote(current));
    assert MatchesWeak(InboundTag(current, true), Quote(current));
  }

  /** A write with both headers proceeds exactly when it would proceed with each alone; a missing
      resource passes any `If-None-Match` and no `If-Match`. */
  lemma BothHeaders(im: string, inm: string, current: Option<string>)
    ensures Evaluate(Some(im), Some(inm), current) == Proceed
            <==> Evaluate(Some(im), None, current) == Proceed && Evaluate(None, Some(inm), current) == Proceed
    ensures Evaluate(Some(im), None, None) == Failed && Evaluate(None, Some(inm), None) == Proceed
  {
  }

  /** With no `If-None-Match`, a written date gives 304 exactly when the resource is not newer. */
  lemma ModifiedSinceMeaning(since: int, current: string, lm: int)
    requires Representable(since)
    ensures EvaluateRead(None, Some(FormatHttpDate(since)), current, Some(lm)) == NotModified
            <==> 0 <= lm < (since + 1) * 1_000_000_000
  {
    ParseOfFormat(since);
  }

  // --- Representation variants ----------------------------------------------------------------

  /** The state tags this server mints: no `+`, no comma. */
  predicate StateTag(inner: string) { AllEtagc(inner) && '+' !in inner && ',' !in inner }

  lemma {:induction false} IndexOfPlus(state: string, rest: string)
    requires '+' !in state
    ensures IndexOf(state + "+" + rest, '+') == |state| && IndexOf(state, '+') == |state|
  {
    if state != "" {
      IndexOfPlus(state[1..], rest);
      assert (state + "+" + rest)[1..] == state[1..] + "+" + rest;
    } else {
      assert (state + "+" + rest)[0] == '+';
    }
  }

  lemma VariantShape(state: string, variant: string)
    ensures VariantEtag(Quote(state), variant) == Quote(state + "+" + variant)
  {
  }

  lemma VariantState(state: string, variant: string)
    requires '+' !in state
    ensures StatePart(state + "+" + variant) == state == StatePart(state)
  {
    IndexOfPlus(state, variant);
    assert (state + "+" + variant)[..|state|] == state;
  }

  lemma VariantEtagc(state: string, variant: string)
    requires AllEtagc(state)
    ensures AllEtagc(state + "+" + variant) <==> AllEtagc(variant)
  {
    var v := state + "+" + variant;
    assert forall i :: 0 <= i < |variant| ==> variant[i] == v[|state| + 1 + i];
    assert forall i :: 0 <= i < |v| ==>
        v[i] == (if i < |state| then state[i] else if i == |state| then '+' else variant[i - |state| - 1]);
  }

  lemma VariantTag(state: string, variant: string)
    requires StateTag(state) && ',' !in variant
    ensures VariantEtag(Quote(state), variant) == Quote(state + "+" + variant)
    ensures StatePart(state + "+" + variant) == state == StatePart(state)
    ensures AllEtagc(state + "+" + variant) <==> AllEtagc(variant)
    ensures ',' !in Quote(state + "+" + variant)
  {
    VariantShape(state, variant);
    VariantState(state, variant);
    VariantEtagc(state, variant);
  }

  lemma SingleTag(inner: string)
    requires ',' !in Quote(inner)
    ensures !IsWildcard(Quote(inner))
    ensures forall x, weak :: Lists(Quote(inner), x, weak) <==> AllEtagc(inner) && x == inner && !weak
  {
    SplitWithout(Quote(inner), ',');
    TrimFixed(Quote(inner));
    forall x, weak ensures Lists(Quote(inner), x, weak) <==> AllEtagc(inner) && x == inner && !weak {
      if Render(x, weak) == Quote(inner) {
        assert Render(x, weak)[0] == Quote(inner)[0];
        assert Quote(inner)[1..|Quote(inner)| - 1] == inner;
        assert Quote(x)[1..|Quote(x)| - 1] == x;
      }
      assert Quote(inner) in Split(Quote(inner), ',');
    }
  }

  /** Writes guard the state: a tag received for any variant is as good as the stored one, and
      no tag of another state is. */
  lemma WriteWithVariant(mine: string, current: string, variant: string)
    requires StateTag(mine) && StateTag(current) && ',' !in variant
    ensures Evaluate(Some(VariantEtag(Quote(mine), variant)), None, Some(Quote(current))) == Proceed
            <==> mine == current && AllEtagc(variant)
  {
    var h := VariantEtag(Quote(mine), variant);
    VariantTag(mine, variant);
    VariantTag(current, "");
    SingleTag(mine + "+" + variant);
    IfMatchMeaning(h, current);
    if AllEtagc(variant) { assert Lists(h, mine + "+" + variant, false); }
  }

  /** A tag with other characters is never the current one. */
  lemma CurrentOfBadQuote(inner: string)
    requires !AllEtagc(inner)
    ensures ParseCurrent(Quote(inner)) == None
  {
    TrimFixed(Quote(inner));
    assert Quote(inner)[1..] == inner + "\"" && (inner + "\"")[..|inner|] == inner;
  }

  /** Reads compare representations: 304 exactly for the same state in the same variant, if the
      variant is written in tag characters. */
  lemma ReadWithVariant(mine: string, mineVariant: string, current: string, servedVariant: string,
                        ims: Option<string>, lm: Option<int>)
    requires StateTag(mine) && StateTag(current) && ',' !in mineVariant && ',' !in servedVariant
    ensures EvaluateRead(Some(VariantEtag(Quote(mine), mineVariant)), ims,
                         VariantEtag(Quote(current), servedVariant), lm)
              == NotModified
            <==> mine == current && mineVariant == servedVariant && AllEtagc(servedVariant)
  {
    VariantTag(mine, mineVariant);
    VariantTag(current, servedVariant);
    var a, b := mine + "+" + mineVariant, current + "+" + servedVariant;
    SingleTag(a);
    if AllEtagc(b) {
      ReadMeaning(Quote(a), ims, b, lm);
    } else {
      CurrentOfBadQuote(b);
    }
    if a == b {
      IndexOfPlus(mine, mineVariant);
      IndexOfPlus(current, servedVariant);
      assert a[..|mine|] == mine && b[..|current|] == current;
      assert a[|mine| + 1..] == mineVariant && b[|current| + 1..] == servedVariant;
    }
  }

  // --- Malformed members ------------------------------------------------------------------------

  /** A header with one more member, put at place `i` of its list. */
  function WithMember(h: string, i: nat, bad: string): string
    requires i <= |Split(h, ',')|
  {
    Join(Split(h, ',')[..i] + [bad] + Split(h, ',')[i..], ',')
  }

  lemma {:induction false} TagListSkips(a: seq<string>, bad: string, b: seq<string>)
    requires ParseEntityTag(bad).None?
    ensures TagList(a + [bad] + b) == TagList(a + b)
  {
    if a == [] {
      assert (a + [bad] + b)[1..] == b && a + b == b;
    } else {
      TagListSkips(a[1..], bad, b);
      assert (a + [bad] + b)[1..] == a[1..] + [bad] + b && (a + b)[1..] == a[1..] + b;
    }
  }

  lemma WithMemberTags(h: string, i: nat, bad: string)
    requires i <= |Split(h, ',')| && ',' !in bad && ParseEntityTag(bad).None?
    ensures Tags(WithMember(h, i, bad)) == Tags(h) && !IsWildcard(WithMember(h, i, bad))
  {
    var parts := Split(h, ',');
    var more := parts[..i] + [bad] + parts[i..];
    SplitMembers(h, ',');
    SplitOfJoin(more, ',');
    TagListSkips(parts[..i], bad, parts[i..]);
    assert parts[..i] + parts[i..] == parts;
    WildcardIsOneMember(WithMember(h, i, bad));
  }

  lemma WildcardIsOneMember(h: string)
    ensures IsWildcard(h) ==> |Split(h, ',')| == 1
  {
    if IsWildcard(h) { WildcardHasNoComma(h); SplitWithout(h, ','); }
  }

  lemma WildcardHasNoComma(h: string)
    requires IsWildcard(h)
    ensures ',' !in h
  {
    TrimKeeps(h, ',');
  }

  lemma WildcardTags(h: string)
    requires IsWildcard(h)
    ensures Tags(h) == []
  {
    WildcardHasNoComma(h);
    SplitWithout(h, ',');
    TagListSkips([], h, []);
    assert [] + [h] + [] == [h];
  }

  /** Trimming only removes whitespace. */
  lemma {:induction false} TrimKeeps(s: string, c: char)
    requires !IsWhitespace(c)
    ensures c in s ==> c in Trim(s)
  {
    TrimStartKeeps(s, c);
    TrimEndKeeps(TrimStart(s), c);
  }

  lemma {:induction false} TrimStartKeeps(s: string, c: char)
    requires !IsWhitespace(c)
    ensures c in s ==> c in TrimStart(s)
  {
    if s != "" && IsWhitespace(s[0]) { TrimStartKeeps(s[1..], c); }
  }

  lemma {:induction false} TrimEndKeeps(s: string, c: char)
    requires !IsWhitespace(c)
    ensures c in s ==> c in TrimEnd(s)
  {
    if s != "" && IsWhitespace(s[|s| - 1]) { TrimEndKeeps(s[..|s| - 1], c); }
  }

  /** A malformed member never changes a verdict, unless the header was the wildcard: then the
      list is no longer a wildcard, and on an existing resource all three verdicts flip. */
  lemma MalformedMember(h: string, i: nat, bad: string, current: Option<string>, served: string)
    requires i <= |Split(h, ',')| && ',' !in bad && ParseEntityTag(bad).None?
    ensures var g := WithMember(h, i, bad);
            && (!IsWildcard(h) ==>
                  && Evaluate(Some(g), None, current) == Evaluate(Some(h), None, current)
                  && Evaluate(None, Some(g), current) == Evaluate(None, Some(h), current)
                  && EvaluateRead(Some(g), None, served, None) == EvaluateRead(Some(h), None, served, None))
            && (IsWildcard(h) ==>
                  && (Evaluate(Some(g), None, current) != Evaluate(Some(h), None, current) <==> current.Some?)
                  && (Evaluate(None, Some(g), current) != Evaluate(None, Some(h), current) <==> current.Some?)
                  && EvaluateRead(Some(g), None, served, None) != EvaluateRead(Some(h), None, served, None))
  {
    WithMemberTags(h, i, bad);
    if IsWildcard(h) { WildcardTags(h); }
  }

  // --- The two If-None-Match matchers -----------------------------------------------------------

  predicate StarMember(raw: string) { exists m :: m in Split(raw, ',') && Trim(m) == "*" }

  lemma HitsMeaning(raw: string, inner: string)
    requires AllEtagc(inner)
    ensures IfNoneMatchHits(Some(raw), Quote(inner))
            <==> StarMember(raw) || Lists(raw, inner, false) || Lists(raw, inner, true)
  {
    forall m ensures StripPrefix(Trim(m), "W/") == Some(Quote(inner)) <==> Trim(m) == Render(inner, true) {
      var t := Trim(m);
      if "W/" <= t { assert t == t[..2] + t[2..]; }
      assert Render(inner, true)[2..] == Quote(inner);
    }
  }

  /** On every header and every well-formed strong tag the two matchers differ exactly when `*` is
      one member of a longer list and no listed tag matches. */
  lemma MatchersDiffer(raw: string, inner: string)
    requires AllEtagc(inner)
    ensures IfNoneMatchHits(Some(raw), Quote(inner))
            != (EvaluateRead(Some(raw), None, Quote(inner), None) == NotModified)
            <==> StarMember(raw) && |Split(raw, ',')| >= 2 && !Lists(raw, inner, false) && !Lists(raw, inner, true)
  {
    HitsMeaning(raw, inner);
    ReadMeaning(raw, None, inner, None);
    WildcardIsOneMember(raw);
    SplitMembers(raw, ',');
    if IsWildcard(raw) {
      WildcardHasNoComma(raw);
      SplitWithout(raw, ',');
      assert raw in Split(raw, ',');
    }
  }
}
