/**
 * The regular expressions of pkg/server/upload.go, written out as the languages they accept under
 * Go's regexp semantics: (?i) uses simple case folding, so 's' also matches U+017F (long s) and
 * 'k' also matches U+212A (Kelvin sign); '.' matches any character but '\n'; '$' is end of text.
 */
module UploadPatterns {
  import opened Wrappers

  const LongS: char := '\U{017F}'
  const Kelvin: char := '\U{212A}'

  /** c matches the pattern character p under (?i). */
  predicate FoldEq(c: char, p: char) {
    c == p
    || ('a' <= p <= 'z' && c as int == p as int - 32)
    || ('A' <= p <= 'Z' && c as int == p as int + 32)
    || (p == 's' && c == LongS)
    || (p == 'k' && c == Kelvin)
  }

  /** s matches the literal pat under (?i). */
  predicate MatchesFold(s: string, pat: string) {
    |s| == |pat| && forall i :: 0 <= i < |s| ==> FoldEq(s[i], pat[i])
  }

  /** pat occurs at position i of s under (?i). */
  predicate FoldAt(s: string, pat: string, i: int) {
    0 <= i <= |s| - |pat| && MatchesFold(s[i..i + |pat|], pat)
  }

  /** pat occurs somewhere in s under (?i): an unanchored match. */
  predicate ContainsFold(s: string, pat: string) {
    exists i :: 0 <= i <= |s| - |pat| && FoldAt(s, pat, i)
  }

  /** typeRegex, (?i)multipart/form-data, unanchored. */
  predicate IsMultipart(contentType: string) {
    ContainsFold(contentType, "multipart/form-data")
  }

  /** mimeRegex, (?i)^image/(png|jpe?g)$. */
  predicate IsImageMime(mime: string) {
    MatchesFold(mime, "image/png") || MatchesFold(mime, "image/jpeg") || MatchesFold(mime, "image/jpg")
  }

  /** jpegRegex, (?i)^jpe?g$. */
  predicate IsJpegFormat(format: string) {
    MatchesFold(format, "jpeg") || MatchesFold(format, "jpg")
  }

  /**
   * typeRegex is unanchored: a content type that names multipart/form-data still matches with
   * anything around it, such as a "; boundary=..." parameter.
   */
  lemma MultipartWithParameters(before: string, contentType: string, after: string)
    requires IsMultipart(contentType)
    ensures IsMultipart(before + contentType + after)
  {
    var i :| 0 <= i <= |contentType| - 19 && FoldAt(contentType, "multipart/form-data", i);
    var s := before + contentType + after;
    assert s[|before| + i..|before| + i + 19] == contentType[i..i + 19];
    assert FoldAt(s, "multipart/form-data", |before| + i);
  }

  /** mimeRegex is anchored at both ends: nothing may follow an accepted MIME type. */
  lemma ImageMimeAnchored(mime: string, extra: string)
    requires IsImageMime(mime) && extra != []
    ensures !IsImageMime(mime + extra)
  {
    var s := mime + extra;
    if |s| == 10 {
      // Only "image/jpeg" has this length, and mime, of length 9, differs from it inside.
      if MatchesFold(mime, "image/png") {
        assert s[6] == mime[6] && FoldEq(mime[6], 'p');
      } else {
        assert s[8] == mime[8] && FoldEq(mime[8], 'g');
      }
    }
  }

  /** \w under (?i): ASCII letters, digits and '_', plus the two non-ASCII folds of 's' and 'k'. */
  predicate IsWordChar(c: char) {
    ('a' <= c <= 'z') || ('A' <= c <= 'Z') || ('0' <= c <= '9') || c == '_' || c == LongS || c == Kelvin
  }

  /** The class of plainTextRegex: \w, \d, \s (tab, newline, form feed, carriage return, space), äöüÄÖÜ and !?"'()&#@=+,-[]. */
  predicate IsPlainTextChar(c: char) {
    IsWordChar(c)
    || c == '\t' || c == '\n' || c == '\U{000C}' || c == '\r' || c == ' '
    || c in "äöüÄÖÜ"
    || c in "!?\"'()&#@=+,-[]"
  }

  /** plainTextRegex: the whole string is drawn from the class (the class is starred, so "" matches). */
  predicate IsPlainText(s: string) {
    forall i :: 0 <= i < |s| ==> IsPlainTextChar(s[i])
  }

  /** The empty title and text are accepted. */
  lemma PlainTextEmpty()
    ensures IsPlainText("")
  {
  }

  /** Accepted texts are closed under concatenation, and both parts of an accepted text are accepted. */
  lemma PlainTextConcat(s: string, t: string)
    ensures IsPlainText(s + t) <==> IsPlainText(s) && IsPlainText(t)
  {
    assert forall i :: 0 <= i < |t| ==> t[i] == (s + t)[|s| + i];
    assert forall i :: 0 <= i < |s + t| ==> (s + t)[i] == if i < |s| then s[i] else t[i - |s|];
  }

  /** What the check is for: accepted text contains no markup or entity delimiters. */
  lemma PlainTextHasNoMarkup(s: string)
    requires IsPlainText(s)
    ensures '<' !in s && '>' !in s && ';' !in s && '/' !in s
  {
    forall i | 0 <= i < |s|
      ensures s[i] !in "<>;/"
    {
      assert IsPlainTextChar(s[i]);
    }
  }

  /** The end of the run of \w characters starting at i. */
  function WordRunEnd(s: string, i: nat): (j: nat)
    requires i <= |s|
    ensures i <= j <= |s|
    ensures forall k :: i <= k < j ==> IsWordChar(s[k])
    ensures j < |s| ==> !IsWordChar(s[j])
    decreases |s| - i
  {
    if i < |s| && IsWordChar(s[i]) then WordRunEnd(s, i + 1) else i
  }

  /** A run that ends inside a prefix of s ends at the same place in that prefix. */
  lemma {:induction false} WordRunEndPrefix(s: string, i: nat, n: nat)
    requires i <= n <= |s| && WordRunEnd(s, i) <= n
    ensures WordRunEnd(s[..n], i) == WordRunEnd(s, i)
    decreases |s| - i
  {
    if i < |s| && IsWordChar(s[i]) {
      WordRunEndPrefix(s, i + 1, n);
    }
  }

  /** The index just past "http[s]://www.instagram.com/", where '.' is any character but '\n'. */
  function HostEnd(s: string): (h: Option<nat>)
    ensures h.Some? ==> 25 <= h.value <= |s| && h.value <= 26
  {
    if |s| < 5 || !MatchesFold(s[..4], "http") then None
    else
      var i := if FoldEq(s[4], 's') then 5 else 4;
      if |s| < i + 21 then None
      else if s[i..i + 3] == "://" && MatchesFold(s[i + 3..i + 6], "www") && s[i + 6] != '\n'
           && MatchesFold(s[i + 7..i + 16], "instagram") && s[i + 16] != '\n'
           && MatchesFold(s[i + 17..i + 20], "com") && s[i + 20] == '/'
      then Some(i + 21)
      else None
  }

  /** The host part is read from the first characters only, so a long enough prefix has it too. */
  lemma HostEndPrefix(s: string, n: nat)
    requires HostEnd(s).Some? && HostEnd(s).value <= n <= |s|
    ensures HostEnd(s[..n]) == HostEnd(s)
  {
    var t := s[..n];
    var i := if FoldEq(s[4], 's') then 5 else 4;
    assert t[..4] == s[..4] && t[4] == s[4];
    assert t[i..i + 3] == s[i..i + 3] && t[i + 3..i + 6] == s[i + 3..i + 6];
    assert t[i + 7..i + 16] == s[i + 7..i + 16] && t[i + 17..i + 20] == s[i + 17..i + 20];
  }

  /**
   * instaUrlRegex, (?i)^(?P<url>https?://www.instagram.com/\w+/\w+)/.*$: the text of the url
   * group when the whole string matches. The two \w+ runs are maximal, since '/' follows each.
   */
  function InstaMatch(s: string): (r: Option<string>)
    ensures r.Some? ==> |r.value| < |s| && r.value == s[..|r.value|] && s[|r.value|] == '/'
  {
    match HostEnd(s)
    case None => None
    case Some(h) =>
      var e1 := WordRunEnd(s, h);
      if e1 == h || e1 == |s| || s[e1] != '/' then None
      else
        var e2 := WordRunEnd(s, e1 + 1);
        if e2 == e1 + 1 || e2 == |s| || s[e2] != '/' || '\n' in s[e2 + 1..] then None
        else Some(s[..e2])
  }

  /** The captured prefix itself does not match: nothing follows its second segment. */
  lemma CaptureDoesNotMatch(s: string)
    requires InstaMatch(s).Some?
    ensures InstaMatch(InstaMatch(s).value) == None
  {
    var c := InstaMatch(s).value;
    var h := HostEnd(s).value;
    var e1 := WordRunEnd(s, h);
    var e2 := WordRunEnd(s, e1 + 1);
    assert c == s[..e2];
    HostEndPrefix(s, e2);
    WordRunEndPrefix(s, h, e2);
    WordRunEndPrefix(s, e1 + 1, e2);
  }

  /** The URL uploadInstagram goes on with: the url group when the regex matches, else the input. */
  function Normalized(url: string): (r: string)
    ensures r <= url
  {
    match InstaMatch(url)
    case Some(c) => c
    case None => url
  }

  /** Normalising twice is normalising once. */
  lemma NormalizedIdempotent(url: string)
    ensures Normalized(Normalized(url)) == Normalized(url)
  {
    if InstaMatch(url).Some? {
      CaptureDoesNotMatch(url);
    }
  }

  /** A run of \w characters from i to j that nothing of \w follows ends at j. */
  lemma {:induction false} WordRunOver(s: string, i: nat, j: nat)
    requires i <= j <= |s| && (forall k :: i <= k < j ==> IsWordChar(s[k]))
    requires j < |s| ==> !IsWordChar(s[j])
    ensures WordRunEnd(s, i) == j
    decreases j - i
  {
    if i < j {
      WordRunOver(s, i + 1, j);
    }
  }

  const InstaHost := "https://www.instagram.com/"

  predicate IsWord(w: string) {
    forall k :: 0 <= k < |w| ==> IsWordChar(w[k])
  }

  /** Every literal matches itself under (?i). */
  lemma MatchesFoldSelf(p: string)
    ensures MatchesFold(p, p)
  {
  }

  /** The pieces of InstaHost that HostEnd reads. */
  lemma InstaHostParts()
    ensures InstaHost[..4] == "http" && InstaHost[4] == 's' && InstaHost[5..8] == "://"
    ensures InstaHost[8..11] == "www" && InstaHost[12..21] == "instagram" && InstaHost[22..25] == "com"
  {
    assert InstaHost == "http" + "s" + "://" + "www" + "." + "instagram" + "." + "com" + "/";
  }

  /** InstaHost itself is a complete host part. */
  lemma HostOfInstaHost()
    ensures HostEnd(InstaHost) == Some(26)
  {
    InstaHostParts();
    MatchesFoldSelf("http");
    MatchesFoldSelf("www");
    MatchesFoldSelf("instagram");
    MatchesFoldSelf("com");
  }

  /** The host part is read from the first characters only, so extending s keeps it. */
  lemma HostEndExtend(t: string, s: string)
    requires HostEnd(t).Some? && t <= s
    ensures HostEnd(s) == HostEnd(t)
  {
    assert s[..|t|] == t;
    HostEndPrefix(s, |t|);
  }

  /** The host part of a URL that starts with InstaHost ends right after it. */
  lemma HostOfPost(x: string)
    ensures HostEnd(InstaHost + x) == Some(26)
  {
    HostOfInstaHost();
    HostEndExtend(InstaHost, InstaHost + x);
  }

  /** A word placed after pre and followed by a non-word character (or nothing) is one whole \w run. */
  lemma WordRunOfWord(pre: string, w: string, post: string)
    requires IsWord(w) && (post != [] ==> !IsWordChar(post[0]))
    ensures WordRunEnd(pre + w + post, |pre|) == |pre| + |w|
  {
    var s := pre + w + post;
    forall k | |pre| <= k < |pre| + |w|
      ensures IsWordChar(s[k])
    {
      assert s[k] == w[k - |pre|];
    }
    if post != [] {
      assert s[|pre| + |w|] == post[0];
    }
    WordRunOver(s, |pre|, |pre| + |w|);
  }

  /** Every post URL with a non-empty user and post segment is cut back to /<user>/<post>. */
  lemma NormalizedPost(user: string, post: string, rest: string)
    requires |user| > 0 && |post| > 0 && IsWord(user) && IsWord(post) && '\n' !in rest
    ensures Normalized(InstaHost + user + "/" + post + "/" + rest) == InstaHost + user + "/" + post
  {
    var tail := "/" + post + "/" + rest;
    var head := InstaHost + user + "/";
    var s := InstaHost + user + tail;
    assert s == InstaHost + user + "/" + post + "/" + rest;
    assert s == head + post + ("/" + rest);
    HostOfPost(user + tail);
    assert s == InstaHost + (user + tail);
    WordRunOfWord(InstaHost, user, tail);
    WordRunOfWord(head, post, "/" + rest);
    var e1 := 26 + |user|;
    var e2 := e1 + 1 + |post|;
    assert s[e1] == tail[0] == '/';
    assert s[e2] == '/' by { assert s[e2] == ("/" + rest)[0]; }
    assert s[e2 + 1..] == rest;
    assert s[..e2] == head + post;
  }

  /** The escape sequence saveInstagram rewrites: backslash, 'u', '0', '0', '2', '6'. */
  const EscapedAmp := "\\u0026"

  /** s holds EscapedAmp at position i. */
  predicate EscapedAt(s: string, i: int) {
    0 <= i && i + |EscapedAmp| <= |s| && s[i..i + |EscapedAmp|] == EscapedAmp
  }

  /** strings.Replace(s, EscapedAmp, "&", -1): every occurrence of the six-character escape becomes '&', non-overlapping, left to right. */
  function ReplaceAmp(s: string): (r: string)
    ensures |r| <= |s|
    decreases |s|
  {
    if EscapedAt(s, 0) then "&" + ReplaceAmp(s[|EscapedAmp|..])
    else if s == [] then []
    else [s[0]] + ReplaceAmp(s[1..])
  }

  /** Without an occurrence nothing changes. */
  lemma {:induction false} ReplaceAmpUnchanged(s: string)
    requires forall i :: !EscapedAt(s, i)
    ensures ReplaceAmp(s) == s
    decreases |s|
  {
    if s != [] {
      assert !EscapedAt(s, 0);
      forall i ensures !EscapedAt(s[1..], i) {
        if 0 <= i && i + 6 <= |s[1..]| {
          assert s[1..][i..i + 6] == s[i + 1..i + 7];
          assert !EscapedAt(s, i + 1);
        }
      }
      ReplaceAmpUnchanged(s[1..]);
    }
  }

  /** An escape at the front becomes a leading '&'. */
  lemma AmpFirst(s: string)
    ensures EscapedAt(s, 0) ==> |ReplaceAmp(s)| > 0 && ReplaceAmp(s)[0] == '&'
  {
  }

  /** A prefix of the result without '&' was copied unchanged from the input. */
  lemma {:induction false} ReplaceAmpCopies(s: string, n: nat)
    requires n <= |ReplaceAmp(s)| && forall i :: 0 <= i < n ==> ReplaceAmp(s)[i] != '&'
    requires n > 0 ==> !EscapedAt(s, 0)
    ensures n <= |s| && ReplaceAmp(s)[..n] == s[..n]
    decreases |s|
  {
    if n > 0 {
      {
        var r := ReplaceAmp(s[1..]);
        assert ReplaceAmp(s) == [s[0]] + r;
        assert forall i :: 0 <= i < n - 1 ==> r[i] == ReplaceAmp(s)[i + 1];
        AmpFirst(s[1..]);
        ReplaceAmpCopies(s[1..], n - 1);
        assert ReplaceAmp(s)[..n] == [s[0]] + r[..n - 1];
      }
    }
  }

  /** Every escape is rewritten: none is left over, and the rewrite creates none. */
  lemma {:induction false} ReplaceAmpComplete(s: string)
    ensures forall i :: !EscapedAt(ReplaceAmp(s), i)
    decreases |s|
  {
    var r := ReplaceAmp(s);
    if EscapedAt(s, 0) {
      var rt := ReplaceAmp(s[|EscapedAmp|..]);
      ReplaceAmpComplete(s[|EscapedAmp|..]);
      assert r == "&" + rt;
      forall i ensures !EscapedAt(r, i) {
        if i == 0 {
          assert r[0] != EscapedAmp[0];
        } else if 0 < i && i + 6 <= |r| {
          assert r[i..i + 6] == rt[i - 1..i + 5];
          assert !EscapedAt(rt, i - 1);
        }
      }
    } else if s != [] {
      var rt := ReplaceAmp(s[1..]);
      ReplaceAmpComplete(s[1..]);
      assert r == [s[0]] + rt;
      forall i ensures !EscapedAt(r, i) {
        if i == 0 && 6 <= |r| {
          StartNotEscaped(s, 6);
        } else if 0 < i && i + 6 <= |r| {
          assert r[i..i + 6] == rt[i - 1..i + 5];
          assert !EscapedAt(rt, i - 1);
        }
      }
    }
  }

  /** When s does not start with the escape, neither does its rewrite. */
  lemma StartNotEscaped(s: string, n: nat)
    requires n == |EscapedAmp| <= |ReplaceAmp(s)| && !EscapedAt(s, 0) && s != []
    ensures !EscapedAt(ReplaceAmp(s), 0)
  {
    var r := ReplaceAmp(s);
    var rt := ReplaceAmp(s[1..]);
    assert r == [s[0]] + rt;
    if exists k :: 0 <= k < 5 && rt[k] == '&' {
      var k :| 0 <= k < 5 && rt[k] == '&';
      assert r[k + 1] == '&' && EscapedAmp[k + 1] != '&';
    } else {
      AmpFirst(s[1..]);
      ReplaceAmpCopies(s[1..], 5);
      assert r[..6] == [s[0]] + rt[..5] == [s[0]] + s[1..][..5];
      assert s[..6] == [s[0]] + s[1..][..5];
    }
  }
}
