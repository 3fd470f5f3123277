/** github.com/google/uuid: a UUID is 16 bytes; String gives the canonical 8-4-4-4-12 lower-case form. */
module GoUuid {
  import opened GoHex

  type Uuid = s: seq<byte> | |s| == 16 witness [0, 0, 0, 0, 0, 0, 0, 0, 0, 0, 0, 0, 0, 0, 0, 0]

  /** Five groups joined by dashes. */
  function Dashed(g1: string, g2: string, g3: string, g4: string, g5: string): string {
    g1 + "-" + g2 + "-" + g3 + "-" + g4 + "-" + g5
  }

  /** With the canonical group lengths, every group can be read back from its position. */
  lemma DashedGroups(g1: string, g2: string, g3: string, g4: string, g5: string)
    requires |g1| == 8 && |g2| == 4 && |g3| == 4 && |g4| == 4 && |g5| == 12
    ensures var s := Dashed(g1, g2, g3, g4, g5);
      |s| == 36 && s[8] == '-' && s[13] == '-' && s[18] == '-' && s[23] == '-' &&
      s[..8] == g1 && s[9..13] == g2 && s[14..18] == g3 && s[19..23] == g4 && s[24..] == g5
  {
  }

  /** uuid.UUID.String. */
  function UuidString(id: Uuid): (s: string)
    ensures |s| == 36
    ensures s[8] == '-' && s[13] == '-' && s[18] == '-' && s[23] == '-'
  {
    DashedGroups(EncodeToString(id[..4]), EncodeToString(id[4..6]), EncodeToString(id[6..8]),
                 EncodeToString(id[8..10]), EncodeToString(id[10..]));
    Dashed(EncodeToString(id[..4]), EncodeToString(id[4..6]), EncodeToString(id[6..8]),
           EncodeToString(id[8..10]), EncodeToString(id[10..]))
  }

  /** Distinct ids have distinct textual forms, so the per-record paths and URLs built from them never collide. */
  lemma UuidStringInjective(a: Uuid, b: Uuid)
    requires UuidString(a) == UuidString(b)
    ensures a == b
  {
    DashedGroups(EncodeToString(a[..4]), EncodeToString(a[4..6]), EncodeToString(a[6..8]),
                 EncodeToString(a[8..10]), EncodeToString(a[10..]));
    DashedGroups(EncodeToString(b[..4]), EncodeToString(b[4..6]), EncodeToString(b[6..8]),
                 EncodeToString(b[8..10]), EncodeToString(b[10..]));
    EncodeInjective(a[..4], b[..4]);
    EncodeInjective(a[4..6], b[4..6]);
    EncodeInjective(a[6..8], b[6..8]);
    EncodeInjective(a[8..10], b[8..10]);
    EncodeInjective(a[10..], b[10..]);
    assert a == a[..4] + a[4..6] + a[6..8] + a[8..10] + a[10..];
    assert b == b[..4] + b[4..6] + b[6..8] + b[8..10] + b[10..];
  }
}
