/** Shapes of the identifiers that travel on the wire (src/wire.rs), and bounds of the canonical form that several
    components refer to. */
module Wire {
  /** The greatest integer that canonical JSON carries. */
  const SAFE_INTEGER_MAX: nat := 9_007_199_254_740_991

  /** The greatest number of bytes in a normalized string of canonical JSON. */
  const MAX_STRING_UTF8 := 8_192


  predicate IsLowerHex(c: char) {
    '0' <= c <= '9' || 'a' <= c <= 'f'
  }

  predicate IsSha256Ref(s: string) {
    |s| == 71 && s[..7] == "sha256:" && forall i | 7 <= i < 71 :: IsLowerHex(s[i])
  }

  predicate IsNodeId(s: string) {
    && 9 < |s| <= 137
    && s[..9] == "fed:qsol:"
    && ('a' <= s[9] <= 'z' || '0' <= s[9] <= '9')
    && forall i | 9 <= i < |s| ::
         'a' <= s[i] <= 'z' || '0' <= s[i] <= '9' || s[i] == '.' || s[i] == '_' || s[i] == '-'
  }
}
