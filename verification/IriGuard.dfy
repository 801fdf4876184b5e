/** The structural guard on listed IRIs (examples/iri_guard_microbench.rs). */
module IriGuard {
  import opened Utf8

  /** General category Cc. */
  predicate IsControl(c: char) { c < ' ' || '\U{007F}' <= c <= '\U{009F}' }

  predicate Forbidden(c: char) {
    IsControl(c) || c in {' ', '<', '>', '"', '{', '}', '|', '^', '`', '\\'}
  }

  /** The character-by-character reference. */
  predicate Reference(iri: string) {
    iri != "" && !exists c :: c in iri && Forbidden(c)
  }

  predicate ForbiddenByte(b: Byte) {
    b < 0x20 || b == 0x7F || b in {0x20, 0x3C, 0x3E, 0x22, 0x7B, 0x7D, 0x7C, 0x5E, 0x60, 0x5C}
  }

  lemma ForbiddenAscii(b: Byte)
    requires b < 0x80
    ensures ForbiddenByte(b) <==> Forbidden(b as char)
  {
  }

  /** The byte scan, falling back to the characters at the first non-ASCII byte. */
  method Optimised(iri: string) returns (ok: bool)
    ensures ok == Reference(iri)
  {
    if iri == "" { return false; }
    var bytes := Encode(iri);
    var allAscii := true;
    for i := 0 to |bytes|
      invariant forall k :: 0 <= k < i ==> bytes[k] < 0x80 && !ForbiddenByte(bytes[k])
      invariant allAscii
    {
      if bytes[i] >= 0x80 {
        allAscii := false;
        break;
      }
      if ForbiddenByte(bytes[i]) {
        ForbiddenAscii(bytes[i]);
        AsciiBytes(iri, bytes[i]);
        return false;
      }
    }
    if allAscii {
      CleanBytes(iri);
      return true;
    }
    ok := !exists c :: c in iri && Forbidden(c);
  }

  lemma CleanBytes(iri: string)
    requires forall k :: 0 <= k < |Encode(iri)| ==> Encode(iri)[k] < 0x80 && !ForbiddenByte(Encode(iri)[k])
    ensures forall c :: c in iri ==> !Forbidden(c)
  {
    NonAsciiBytes(iri);
    forall c | c in iri ensures !Forbidden(c) {
      assert c < '\U{0080}';
      AsciiBytes(iri, c as int);
      ForbiddenAscii(c as int);
    }
  }
}
