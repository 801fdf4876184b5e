/**
 Request targets and the reserved identity namespace (src/identity.rs, src/ldp/target.rs).

 `Addresses` says what the refusal is for: some prefix of the path's bytes is a percent-encoding,
 byte by byte and in any mix, of slashes followed by `.identity` in some letter case, and then
 the path ends or a (possibly encoded) slash follows.
 */
module ReservedPath {
  import opened Text
  import opened Utf8

  // --- The code ------------------------------------------------------------------------------

  const RESERVED: string := ".identity"
  const PERCENT: Byte := 0x25
  const SLASH: Byte := 0x2F

  function HexValue(b: Byte): (v: Option<int>)
    ensures v.Some? ==> 0 <= v.value < 16
  {
    if 0x30 <= b <= 0x39 then Some(b as int - 0x30)
    else if 0x61 <= b <= 0x66 then Some(b as int - 0x61 + 10)
    else if 0x41 <= b <= 0x46 then Some(b as int - 0x41 + 10)
    else None
  }

  predicate IsEscape(b: seq<Byte>) {
    |b| > 2 && b[0] == PERCENT && HexValue(b[1]).Some? && HexValue(b[2]).Some?
  }

  function EscapeValue(b: seq<Byte>): Byte
    requires IsEscape(b)
  {
    HexValue(b[1]).value * 16 + HexValue(b[2]).value
  }

  function DecodeBytes(b: seq<Byte>): seq<Byte> {
    if b == [] then []
    else if IsEscape(b) then [EscapeValue(b)] + DecodeBytes(b[3..])
    else [b[0]] + DecodeBytes(b[1..])
  }

  lemma DecodeStep(bytes: seq<Byte>, i: nat, out: seq<Byte>)
    requires i < |bytes|
    ensures IsEscape(bytes[i..]) ==>
              i + 2 < |bytes| && out + DecodeBytes(bytes[i..])
                  == (out + [EscapeValue(bytes[i..])]) + DecodeBytes(bytes[i + 3..])
    ensures !IsEscape(bytes[i..]) ==> out + DecodeBytes(bytes[i..]) == (out + [bytes[i]]) + DecodeBytes(bytes[i + 1..])
  {
  }

  /** The index loop of the lossy percent-decoder. */
  method PercentDecodeLossy(path: string) returns (s: string)
    ensures s == DecodeLossy(DecodeBytes(Encode(path)))
  {
    var bytes := Encode(path);
    var out: seq<Byte> := [];
    var i := 0;
    assert bytes[0..] == bytes;
    while i < |bytes|
      invariant 0 <= i <= |bytes|
      invariant out + DecodeBytes(bytes[i..]) == DecodeBytes(bytes)
    {
      DecodeStep(bytes, i, out);
      if bytes[i] == PERCENT && i + 2 < |bytes| {
        var hi, lo := HexValue(bytes[i + 1]), HexValue(bytes[i + 2]);
        if hi.Some? && lo.Some? {
          out := out + [hi.value * 16 + lo.value];
          i := i + 3;
          continue;
        }
      }
      assert !IsEscape(bytes[i..]);
      out := out + [bytes[i]];
      i := i + 1;
    }
    assert out == DecodeBytes(bytes);
    s := DecodeLossy(out);
  }

  predicate FirstSegmentIsReserved(path: string) {
    EqIgnoreAsciiCase(Split(TrimStartMatches(path, '/'), '/')[0], RESERVED)
  }

  predicate IsReservedIdentityPath(path: string) {
    FirstSegmentIsReserved(path) || FirstSegmentIsReserved(DecodeLossy(DecodeBytes(Encode(path))))
  }

  function ReservedDocIri(base: string, handle: string): string {
    TrimEndMatches(base, '/') + "/" + RESERVED + "/" + handle
  }

  datatype ServerError = BadRequest(message: string) | NotFound
  datatype LdpTarget = LdpTarget(iri: string, htu: string, isContainer: bool)
  datatype Result<T> = Ok(value: T) | Err(error: ServerError)

  function PathOnly(path: string): string {
    if path == "" || path[0] == '?' || path[0] == '#' then "" else [path[0]] + PathOnly(path[1..])
  }

  /** The first offending segment decides the error. */
  function SegmentError(segments: seq<string>): Option<ServerError> {
    if segments == [] then None
    else if segments[0] == "" then Some(BadRequest("empty path segment rejected"))
    else if segments[0] == ".." || segments[0] == "." then Some(BadRequest("path traversal rejected"))
    else SegmentError(segments[1..])
  }

  function ParseTarget(base: string, path: string): Result<LdpTarget> {
    var origin := TrimEndMatches(base, '/');
    var p := PathOnly(path);
    var trimmed := TrimEndMatches(TrimStartMatches(p, '/'), '/');
    if origin == "" then Err(BadRequest("empty base url"))
    else if p == "" || p[0] != '/' then Err(BadRequest("path must be absolute"))
    else if IsReservedIdentityPath(p) then Err(NotFound)
    else if trimmed != "" && SegmentError(Split(trimmed, '/')).Some? then Err(SegmentError(Split(trimmed, '/')).value)
    else Ok(LdpTarget(origin + p, origin + p, p[|p| - 1] == '/'))
  }

  // --- What the refusal is for ----------------------------------------------------------------

  /** `e` is `plain` with any of its bytes percent-encoded, hex digits in either case. */
  predicate EncodedForm(e: seq<Byte>, plain: string) {
    if plain == "" then e == []
    else
      || (e != [] && e[0] != PERCENT && e[0] == plain[0] as int && EncodedForm(e[1..], plain[1..]))
      || (IsEscape(e) && EscapeValue(e) == plain[0] as int && EncodedForm(e[3..], plain[1..]))
  }

  /** Slashes, then `.identity` in some letter case. */
  predicate NamespacePrefix(plain: string, slashes: nat) {
    && slashes <= |plain|
    && (forall i :: 0 <= i < slashes ==> plain[i] == '/')
    && EqIgnoreAsciiCase(plain[slashes..], RESERVED)
  }

  predicate SlashNext(rest: seq<Byte>) {
    rest != [] && (rest[0] == SLASH || (IsEscape(rest) && EscapeValue(rest) == SLASH))
  }

  predicate AddressedVia(path: seq<Byte>, e: seq<Byte>, rest: seq<Byte>, plain: string, slashes: nat) {
    path == e + rest && EncodedForm(e, plain) && NamespacePrefix(plain, slashes) && (rest == [] || SlashNext(rest))
  }

  ghost predicate Addresses(path: string) {
    exists e, rest, plain, slashes :: AddressedVia(Encode(path), e, rest, plain, slashes)
  }

  // --- Decoding an encoded prefix ---------------------------------------------------------------

  predicate Plain(s: string) { forall i :: 0 <= i < |s| ==> s[i] < '\U{0080}' && s[i] != '%' }

  lemma NamespaceIsPlain(plain: string, slashes: nat)
    requires NamespacePrefix(plain, slashes)
    ensures Plain(plain) && '/' !in plain[slashes..] && |plain| == slashes + 9 && plain[slashes] == '.'
  {
  }

  lemma EscapePrefix(e: seq<Byte>, rest: seq<Byte>)
    requires IsEscape(e)
    ensures IsEscape(e + rest) && EscapeValue(e + rest) == EscapeValue(e) && (e + rest)[3..] == e[3..] + rest
  {
  }

  /** Decoding takes one plain character off an encoding. */
  lemma DecodeFirst(e: seq<Byte>, plain: string, rest: seq<Byte>) returns (n: nat)
    requires plain != "" && EncodedForm(e, plain)
    ensures n <= |e| && EncodedForm(e[n..], plain[1..])
    ensures DecodeBytes(e + rest) == [plain[0] as int] + DecodeBytes(e[n..] + rest)
  {
    if e[0] != PERCENT {
      n := 1;
      assert (e + rest)[0] == e[0] && (e + rest)[1..] == e[1..] + rest;
    } else {
      n := 3;
      EscapePrefix(e, rest);
    }
  }

  lemma {:induction false} DecodePrefix(e: seq<Byte>, plain: string, rest: seq<Byte>)
    requires Plain(plain) && EncodedForm(e, plain)
    ensures DecodeBytes(e + rest) == Encode(plain) + DecodeBytes(rest)
  {
    if plain == "" {
      assert e + rest == rest;
    } else {
      var n := DecodeFirst(e, plain, rest);
      assert Plain(plain[1..]);
      DecodePrefix(e[n..], plain[1..], rest);
      EncodeAsciiStep(plain);
      Associate([plain[0] as int], Encode(plain[1..]), DecodeBytes(rest));
    }
  }

  lemma Associate(a: seq<Byte>, b: seq<Byte>, c: seq<Byte>)
    ensures a + (b + c) == (a + b) + c
  {
  }

  lemma {:induction false} LossyPrefix(plain: string, rest: seq<Byte>)
    requires Plain(plain)
    ensures DecodeLossy(Encode(plain) + rest) == plain + DecodeLossy(rest)
  {
    if plain == "" {
      assert Encode(plain) + rest == rest;
    } else {
      assert Plain(plain[1..]);
      EncodeAsciiStep(plain);
      var b := Encode(plain) + rest;
      assert b == [plain[0] as int] + (Encode(plain[1..]) + rest);
      DecodeAsciiStep(b);
      LossyPrefix(plain[1..], rest);
    }
  }

  // --- The refusal is exact ---------------------------------------------------------------------

  lemma {:induction false} TrimSlashes(s: string, k: nat)
    requires k <= |s| && (forall i :: 0 <= i < k ==> s[i] == '/') && (k < |s| ==> s[k] != '/')
    ensures TrimStartMatches(s, '/') == s[k..]
  {
    if k > 0 { TrimSlashes(s[1..], k - 1); }
  }

  lemma {:induction false} LeadingSlashes(s: string) returns (k: nat)
    ensures k <= |s| && (forall i :: 0 <= i < k ==> s[i] == '/') && (k < |s| ==> s[k] != '/')
  {
    k := 0;
    if s != "" && s[0] == '/' {
      var j := LeadingSlashes(s[1..]);
      k := j + 1;
    }
  }

  lemma {:induction false} IndexOfIs(s: string, c: char, n: nat)
    requires n <= |s| && c !in s[..n] && (n < |s| ==> s[n] == c)
    ensures IndexOf(s, c) == n
  {
    if n > 0 {
      assert s[0] == s[..n][0];
      assert s[1..][..n - 1] == s[..n][1..];
      IndexOfIs(s[1..], c, n - 1);
    }
  }

  /** A path has a reserved first segment exactly when it is a namespace prefix followed by
      nothing or by a slash. */
  lemma ReservedSegment(plain: string, slashes: nat, tail: string)
    requires NamespacePrefix(plain, slashes) && (tail == "" || tail[0] == '/')
    ensures FirstSegmentIsReserved(plain + tail)
  {
    NamespaceIsPlain(plain, slashes);
    var s := plain + tail;
    TrimSlashes(s, slashes);
    var t := s[slashes..];
    assert t == plain[slashes..] + tail;
    assert t[..9] == plain[slashes..];
    IndexOfIs(t, '/', 9);
    SplitFirst(t, '/');
  }

  lemma SegmentEnd(t: string)
    ensures var n := IndexOf(t, '/'); n <= |t| && Split(t, '/')[0] == t[..n] && (n < |t| ==> t[n] == '/')
  {
    SplitFirst(t, '/');
    IndexOfProps(t, '/');
    if '/' !in t { NoSlashIndex(t); }
  }

  lemma SegmentReserved(s: string) returns (plain: string, slashes: nat, tail: string)
    requires FirstSegmentIsReserved(s)
    ensures s == plain + tail && NamespacePrefix(plain, slashes) && (tail == "" || tail[0] == '/')
  {
    slashes := LeadingSlashes(s);
    TrimSlashes(s, slashes);
    var t := s[slashes..];
    SegmentEnd(t);
    var n := IndexOf(t, '/');
    plain, tail := s[..slashes + n], s[slashes + n..];
    assert plain[slashes..] == t[..n];
    assert forall i :: 0 <= i < slashes ==> plain[i] == s[i];
  }

  lemma {:induction false} NoSlashIndex(t: string)
    requires '/' !in t
    ensures IndexOf(t, '/') == |t|
  {
    if t != "" { NoSlashIndex(t[1..]); }
  }

  lemma ConsSplit(c: char, y: string, plain: string, tail: string)
    requires plain != "" && [c] + y == plain + tail
    ensures c == plain[0] && y == plain[1..] + tail
  {
    assert ([c] + y)[0] == c && (plain + tail)[0] == plain[0];
    assert ([c] + y)[1..] == y && (plain + tail)[1..] == plain[1..] + tail;
  }

  lemma LossyFirst(bytes: seq<Byte>, plain: string, tail: string)
    requires plain != "" && plain[0] < '\U{0080}' && DecodeLossy(bytes) == plain + tail
    ensures bytes != [] && bytes[0] == plain[0] as int && DecodeLossy(bytes[1..]) == plain[1..] + tail
  {
    assert (plain + tail)[0] == plain[0];
    if bytes[0] >= 0x80 { DecodeHighStep(bytes); }
    DecodeAsciiStep(bytes);
    ConsSplit(bytes[0] as char, DecodeLossy(bytes[1..]), plain, tail);
  }

  /** If decoded text starts with plain characters, the bytes start with their codes. */
  lemma {:induction false} LossyPrefixInverse(bytes: seq<Byte>, plain: string, tail: string) returns (rest: seq<Byte>)
    requires Plain(plain) && DecodeLossy(bytes) == plain + tail
    ensures bytes == Encode(plain) + rest && DecodeLossy(rest) == tail
  {
    if plain == "" {
      assert plain + tail == tail;
      rest := bytes;
    } else {
      LossyFirst(bytes, plain, tail);
      assert Plain(plain[1..]);
      rest := LossyPrefixInverse(bytes[1..], plain[1..], tail);
      EncodeAsciiStep(plain);
      assert bytes == [bytes[0]] + bytes[1..];
      Associate([bytes[0]], Encode(plain[1..]), rest);
    }
  }

  /** How many bytes the first decoded byte takes. */
  function FirstSize(path: seq<Byte>): nat { if IsEscape(path) then 3 else 1 }

  lemma DecodedFirst(path: seq<Byte>) returns (n: nat)
    requires path != []
    ensures n == FirstSize(path) <= |path| && DecodeBytes(path)[1..] == DecodeBytes(path[n..])
  {
    n := FirstSize(path);
  }

  /** The first character in front of an encoding of the others. */
  lemma EncodedFirst(path: seq<Byte>, n: nat, e: seq<Byte>, plain: string)
    requires path != [] && n == FirstSize(path) <= |path| && plain != "" && plain[0] != '%'
    requires DecodeBytes(path)[0] == plain[0] as int && EncodedForm(e, plain[1..])
    ensures EncodedForm(path[..n] + e, plain)
  {
    var whole := path[..n] + e;
    assert whole[n..] == e;
    if n == 3 { assert IsEscape(whole) && EscapeValue(whole) == EscapeValue(path); }
  }

  /** If percent-decoded bytes start with plain codes, the path starts with an encoding of them. */
  lemma {:induction false} DecodePrefixInverse(path: seq<Byte>, plain: string, rest: seq<Byte>)
    returns (e: seq<Byte>, r: seq<Byte>)
    requires Plain(plain) && DecodeBytes(path) == Encode(plain) + rest
    ensures path == e + r && EncodedForm(e, plain) && DecodeBytes(r) == rest
  {
    if plain == "" {
      assert Encode(plain) + rest == rest;
      e, r := [], path;
    } else {
      EncodeAsciiStep(plain);
      assert Plain(plain[1..]);
      assert (Encode(plain) + rest)[0] == plain[0] as int;
      assert (Encode(plain) + rest)[1..] == Encode(plain[1..]) + rest;
      var n := DecodedFirst(path);
      var e';
      e', r := DecodePrefixInverse(path[n..], plain[1..], rest);
      EncodedFirst(path, n, e', plain);
      e := path[..n] + e';
    }
  }

  lemma {:induction false} EncodePlain(plain: string, tail: string)
    requires Plain(plain)
    ensures Encode(plain + tail) == Encode(plain) + Encode(tail)
    ensures EncodedForm(Encode(plain), plain)
  {
    if plain == "" {
      assert plain + tail == tail;
    } else {
      assert Plain(plain[1..]);
      EncodePlain(plain[1..], tail);
      assert (plain + tail)[1..] == plain[1..] + tail;
      EncodeAsciiStep(plain);
      EncodeAsciiStep(plain + tail);
      assert Encode(plain)[1..] == Encode(plain[1..]);
    }
  }

  lemma AddressedIsRefused(path: string, e: seq<Byte>, rest: seq<Byte>, plain: string, slashes: nat)
    requires AddressedVia(Encode(path), e, rest, plain, slashes)
    ensures FirstSegmentIsReserved(DecodeLossy(DecodeBytes(Encode(path))))
  {
    NamespaceIsPlain(plain, slashes);
    DecodePrefix(e, plain, rest);
    LossyPrefix(plain, DecodeBytes(rest));
    if rest != [] { DecodeAsciiStep(DecodeBytes(rest)); }
    ReservedSegment(plain, slashes, DecodeLossy(DecodeBytes(rest)));
  }

  lemma RefusedIsAddressed(path: string)
    requires FirstSegmentIsReserved(DecodeLossy(DecodeBytes(Encode(path))))
    ensures Addresses(path)
  {
    var plain, slashes, tail := SegmentReserved(DecodeLossy(DecodeBytes(Encode(path))));
    NamespaceIsPlain(plain, slashes);
    var rest := LossyPrefixInverse(DecodeBytes(Encode(path)), plain, tail);
    var e, r := DecodePrefixInverse(Encode(path), plain, rest);
    if r != [] {
      if rest[0] >= 0x80 { DecodeHighStep(rest); } else { DecodeAsciiStep(rest); }
      assert SlashNext(r);
    }
    assert AddressedVia(Encode(path), e, r, plain, slashes);
  }

  lemma RawIsAddressed(path: string)
    requires FirstSegmentIsReserved(path)
    ensures Addresses(path)
  {
    var plain, slashes, tail := SegmentReserved(path);
    NamespaceIsPlain(plain, slashes);
    EncodePlain(plain, tail);
    if tail != "" { EncodeAsciiStep(tail); }
    assert AddressedVia(Encode(path), Encode(plain), Encode(tail), plain, slashes);
  }

  /** The predicate refuses exactly the paths that address the namespace in some encoding. */
  lemma RefusalIsExact(path: string)
    ensures IsReservedIdentityPath(path) <==> Addresses(path)
  {
    if FirstSegmentIsReserved(path) { RawIsAddressed(path); }
    if FirstSegmentIsReserved(DecodeLossy(DecodeBytes(Encode(path)))) { RefusedIsAddressed(path); }
    if Addresses(path) {
      var e, rest, plain, slashes :| AddressedVia(Encode(path), e, rest, plain, slashes);
      AddressedIsRefused(path, e, rest, plain, slashes);
    }
  }

  /** No path that addresses the namespace, in any letter case and encoding, is ever a target. */
  lemma NamespaceHasNoTarget(base: string, path: string)
    requires Addresses(PathOnly(path))
    ensures ParseTarget(base, path).Err?
  {
    RefusalIsExact(PathOnly(path));
  }

  lemma BelowNamespace(p: string, handle: string)
    requires "/" + RESERVED + "/" + handle <= p
    ensures FirstSegmentIsReserved(p)
  {
    var plain := "/" + RESERVED;
    var key := "/" + RESERVED + "/" + handle;
    var tail := p[10..];
    assert key[..10] == plain && key[10] == '/';
    assert p == plain + tail;
    assert plain[1..] == RESERVED;
    assert NamespacePrefix(plain, 1);
    ReservedSegment(plain, 1, tail);
  }

  lemma AcceptedShape(base: string, path: string)
    requires ParseTarget(base, path).Ok?
    ensures ParseTarget(base, path).value.iri == TrimEndMatches(base, '/') + PathOnly(path)
    ensures !IsReservedIdentityPath(PathOnly(path))
  {
  }

  lemma KeyBelow(origin: string, p: string, handle: string)
    requires origin + "/" + RESERVED + "/" + handle <= origin + p
    ensures FirstSegmentIsReserved(p)
  {
    var suffix := "/" + RESERVED + "/" + handle;
    assert origin + "/" + RESERVED + "/" + handle == origin + suffix;
    PrefixCancels(origin, suffix, p);
    BelowNamespace(p, handle);
  }

  /** An accepted target never is, and never lies below, the store key of an identity document. */
  lemma TargetAvoidsIdentityKeys(base: string, path: string, handle: string)
    requires ParseTarget(base, path).Ok?
    ensures !(ReservedDocIri(base, handle) <= ParseTarget(base, path).value.iri)
  {
    AcceptedShape(base, path);
    var origin, p := TrimEndMatches(base, '/'), PathOnly(path);
    if ReservedDocIri(base, handle) <= origin + p { KeyBelow(origin, p, handle); }
  }

  lemma PrefixCancels(a: string, b: string, c: string)
    requires a + b <= a + c
    ensures b <= c
  {
    assert (a + c)[|a|..] == c && (a + b)[|a|..] == b;
  }
}
