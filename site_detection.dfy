/** The content script's detection of a Sitefinity site: the first `Generator` meta tag
    that mentions "sitefinity" decides, and its version is read with the regular
    expression `/sitefinity\s+([\d.]+)/i`. */
module SiteDetection {
  import opened Basics

  datatype MetaTag = MetaTag(name: string, content: string)

  /** The answer `checkSitefinitySite()` returns. */
  datatype SiteInfo =
    | Sitefinity(generator: string, version: string, url: string)
    | NotSitefinity(url: string)

  const Word: string := "sitefinity"
  const UnknownVersion: string := "Unknown"

  /** The tags `meta[name="Generator"]` selects; attribute values match exactly. */
  predicate IsGenerator(m: MetaTag) {
    m.name == "Generator"
  }

  /** `content.toLowerCase().includes('sitefinity')`. */
  predicate Mentions(content: string) {
    Contains(LowerAscii(content), Word)
  }

  /** The tag decides the answer: a Generator tag with non-empty content mentioning
      sitefinity. */
  predicate Qualifies(m: MetaTag) {
    IsGenerator(m) && m.content != "" && Mentions(m.content)
  }

  /** `\s` in a JavaScript regular expression. */
  predicate IsJsSpace(c: char) {
    || ('\t' <= c <= '\r')                      // U+0009 to U+000D
    || c == ' ' || c == '\U{00A0}' || c == '\U{1680}'
    || ('\U{2000}' <= c <= '\U{200A}')
    || c == '\U{2028}' || c == '\U{2029}' || c == '\U{202F}' || c == '\U{205F}'
    || c == '\U{3000}' || c == '\U{FEFF}'
  }

  /** `[\d.]`: `\d` is the ASCII digits only. */
  predicate IsVersionChar(c: char) {
    ('0' <= c <= '9') || c == '.'
  }

  /** The end of the longest run of `p`-characters starting at `j`. */
  function SpanEnd(s: string, j: nat, p: char -> bool): (k: nat)
    requires j <= |s|
    ensures j <= k <= |s|
    ensures forall n :: j <= n < k ==> p(s[n])
    ensures k == |s| || !p(s[k])
    decreases |s| - j
  {
    if j == |s| || !p(s[j]) then j else SpanEnd(s, j + 1, p)
  }

  /** "sitefinity" ignoring ASCII case occurs at `i` (the non-Unicode `i` flag folds only
      ASCII letters onto ASCII letters). */
  predicate WordAt(s: string, i: nat) {
    OccursAt(LowerAscii(s), Word, i)
  }

  /** Where the spaces after a "sitefinity" at `i` end. */
  function VersionStart(s: string, i: nat): nat
    requires i + |Word| <= |s|
  {
    SpanEnd(s, i + |Word|, IsJsSpace)
  }

  /** The regular expression matches at `i`: the word, then at least one space, then at
      least one version character. As spaces and version characters are disjoint, the
      greedy `\s+` never needs to give anything back. */
  predicate MatchAt(s: string, i: nat) {
    && WordAt(s, i)
    && var w := VersionStart(s, i);
    && w > i + |Word| && w < |s| && IsVersionChar(s[w])
  }

  /** The capture group of the match at `i`: after the word and its spaces, the longest
      non-empty run of digits and dots. */
  function VersionAt(s: string, i: nat): (v: string)
    requires MatchAt(s, i)
    ensures var w := VersionStart(s, i);
      && i + |Word| < w
      && (forall n :: i + |Word| <= n < w ==> IsJsSpace(s[n]))
      && 0 < |v| && w + |v| <= |s| && s[w..w + |v|] == v
      && (forall n :: 0 <= n < |v| ==> IsVersionChar(v[n]))
      && (w + |v| == |s| || !IsVersionChar(s[w + |v|]))
  {
    var w := VersionStart(s, i);
    s[w..SpanEnd(s, w, IsVersionChar)]
  }

  /** The leftmost match at or after `from`. */
  function FirstMatch(s: string, from: nat): (r: Option<nat>)
    ensures r.Some? ==> from <= r.value && MatchAt(s, r.value)
    ensures forall j :: from <= j && (r.None? || j < r.value) ==> !MatchAt(s, j)
    decreases |s| - from
  {
    if from >= |s| then
      assert forall j :: from <= j ==> !WordAt(s, j);
      None
    else if MatchAt(s, from) then Some(from)
    else FirstMatch(s, from + 1)
  }

  /** `versionMatch ? versionMatch[1] : 'Unknown'`. */
  function VersionOf(content: string): string {
    match FirstMatch(content, 0)
    case Some(i) => VersionAt(content, i)
    case None => UnknownVersion
  }

  /** `checkSitefinitySite()` over the page's meta tags in document order. */
  function CheckSitefinitySite(metas: seq<MetaTag>, url: string): SiteInfo {
    if metas == [] then NotSitefinity(url)
    else if Qualifies(metas[0]) then
      Sitefinity(metas[0].content, VersionOf(metas[0].content), url)
    else CheckSitefinitySite(metas[1..], url)
  }

  /** The message the script sends once at load to have the icon updated. */
  datatype IconUpdate = UpdateIcon(isSitefinity: bool)

  /** The content script after it ran: the answer it computed once, and its icon message. */
  datatype ContentScript = ContentScript(siteInfo: SiteInfo, sent: IconUpdate)

  function Load(metas: seq<MetaTag>, url: string): ContentScript {
    var info := CheckSitefinitySite(metas, url);
    ContentScript(info, UpdateIcon(info.Sitefinity?))
  }

  /** The `onMessage` listener: the stored answer for `checkSitefinity`, no reply otherwise. */
  function OnMessage(cs: ContentScript, action: string): Option<SiteInfo> {
    if action == "checkSitefinity" then Some(cs.siteInfo) else None
  }

  // ---------------------------------------------------------------------------
  // Properties

  /** A site is reported as Sitefinity exactly when some Generator tag with content
      mentions it; the first such tag supplies the generator, verbatim, and the version;
      the URL is always the page's. */
  lemma {:induction false} CheckPicksFirstMention(metas: seq<MetaTag>, url: string)
    ensures var r := CheckSitefinitySite(metas, url);
      && r.url == url
      && (r.Sitefinity? <==> exists k :: 0 <= k < |metas| && Qualifies(metas[k]))
      && (r.Sitefinity? ==>
            exists k :: (0 <= k < |metas| && Qualifies(metas[k])
              && (forall j :: 0 <= j < k ==> !Qualifies(metas[j]))
              && r.generator == metas[k].content
              && r.version == VersionOf(metas[k].content)))
  {
    if metas != [] && !Qualifies(metas[0]) {
      var rest := metas[1..];
      CheckPicksFirstMention(rest, url);
      assert forall k :: 0 <= k < |rest| ==> rest[k] == metas[k + 1];
      var r := CheckSitefinitySite(metas, url);
      if r.Sitefinity? {
        var k :| 0 <= k < |rest| && Qualifies(rest[k])
            && (forall j :: 0 <= j < k ==> !Qualifies(rest[j]))
            && r.generator == rest[k].content && r.version == VersionOf(rest[k].content);
        assert forall j :: 0 <= j < k + 1 ==> !Qualifies(metas[j]) by {
          forall j | 0 <= j < k + 1 ensures !Qualifies(metas[j]) {
            if j > 0 { assert metas[j] == rest[j - 1]; }
          }
        }
        assert Qualifies(metas[k + 1]);
      } else {
        forall k | 0 <= k < |metas| ensures !Qualifies(metas[k]) {
          if k > 0 { assert metas[k] == rest[k - 1]; }
        }
      }
    }
  }

  /** A version is found only in content that mentions sitefinity, and "Unknown" means no
      match: a version is made of digits and dots. */
  lemma VersionShape(content: string)
    ensures VersionOf(content) == UnknownVersion <==> FirstMatch(content, 0).None?
    ensures FirstMatch(content, 0).Some? ==> Mentions(content)
  {
    var r := FirstMatch(content, 0);
    if r.Some? {
      var v := VersionAt(content, r.value);
      assert IsVersionChar(v[0]) && !IsVersionChar(UnknownVersion[0]);
      assert OccursAt(LowerAscii(content), Word, r.value);
    }
  }

  /** A run is determined by where it ends. */
  lemma {:induction false} SpanEndAt(s: string, j: nat, k: nat, p: char -> bool)
    requires j <= k <= |s|
    requires forall n :: j <= n < k ==> p(s[n])
    requires k == |s| || !p(s[k])
    ensures SpanEnd(s, j, p) == k
    decreases k - j
  {
    if j < k {
      SpanEndAt(s, j + 1, k, p);
    }
  }

  /** Content without digits or dots has no version. */
  lemma NoDigitsNoVersion(content: string)
    requires forall n :: 0 <= n < |content| ==> !IsVersionChar(content[n])
    ensures VersionOf(content) == UnknownVersion
  {
  }

  /** `c` is `w` or its upper-case ASCII form, for a lower-case letter `w`. */
  predicate SameIgnoringCase(c: char, w: char) {
    c == w || c as int + 32 == w as int
  }

  /** "sitefinity" occurs at `i`, each letter in either case. */
  predicate WordIgnoringCaseAt(s: string, i: nat) {
    i + |Word| <= |s| && forall n :: 0 <= n < |Word| ==> SameIgnoringCase(s[i + n], Word[n])
  }

  /** Lower-casing and then comparing is comparing letter by letter in either case. */
  lemma WordAtIgnoringCase(s: string, i: nat)
    ensures WordAt(s, i) <==> WordIgnoringCaseAt(s, i)
  {
    assert forall n :: 0 <= n < |Word| ==> 'a' <= Word[n] <= 'z';
    if i + |Word| <= |s| {
      var low := LowerAscii(s);
      forall n | 0 <= n < |Word|
        ensures low[i + n] == Word[n] <==> SameIgnoringCase(s[i + n], Word[n])
      {
      }
      assert WordAt(s, i) <==> forall n :: 0 <= n < |Word| ==> low[i + n] == Word[n] by {
        if forall n :: 0 <= n < |Word| ==> low[i + n] == Word[n] {
          assert low[i..i + |Word|] == Word;
        }
      }
    }
  }

  /** `toLowerCase().includes('sitefinity')` holds iff the content holds the word with each
      letter in either ASCII case. */
  lemma MentionsIgnoringCase(content: string)
    ensures Mentions(content) <==> exists i: nat :: WordIgnoringCaseAt(content, i)
  {
    if Mentions(content) {
      var i :| 0 <= i <= |LowerAscii(content)| - |Word| && OccursAt(LowerAscii(content), Word, i);
      WordAtIgnoringCase(content, i);
      assert WordIgnoringCaseAt(content, i);
    }
    if exists i: nat :: WordIgnoringCaseAt(content, i) {
      var i: nat :| WordIgnoringCaseAt(content, i);
      WordAtIgnoringCase(content, i);
      assert OccursAt(LowerAscii(content), Word, i);
    }
  }

  lemma TypicalGeneratorMatches(s: string)
    requires s == "Sitefinity 14.2.7929.0"
    ensures FirstMatch(s, 0) == Some(0) && VersionStart(s, 0) == 11
  {
    assert WordIgnoringCaseAt(s, 0);
    WordAtIgnoringCase(s, 0);
    SpanEndAt(s, 10, 11, IsJsSpace);
    assert MatchAt(s, 0);
  }

  lemma TypicalGeneratorVersion(s: string)
    requires s == "Sitefinity 14.2.7929.0"
    requires MatchAt(s, 0) && VersionStart(s, 0) == 11
    ensures VersionAt(s, 0) == "14.2.7929.0"
  {
    SpanEndAt(s, 11, 22, IsVersionChar);
    assert s[11..22] == "14.2.7929.0";
  }

  /** The generator string Sitefinity itself writes yields its version number. */
  lemma VersionOfTypicalGenerator()
    ensures VersionOf("Sitefinity 14.2.7929.0") == "14.2.7929.0"
  {
    var s := "Sitefinity 14.2.7929.0";
    TypicalGeneratorMatches(s);
    TypicalGeneratorVersion(s);
  }

  /** Content that mentions Sitefinity without a version still marks the site, with
      version "Unknown". */
  lemma MentionWithoutVersion(url: string)
    ensures var s := "Sitefinity CMS";
      && Mentions(s) && VersionOf(s) == UnknownVersion
      && CheckSitefinitySite([MetaTag("Generator", s)], url) == Sitefinity(s, UnknownVersion, url)
  {
    var s := "Sitefinity CMS";
    assert WordIgnoringCaseAt(s, 0);
    WordAtIgnoringCase(s, 0);
    assert OccursAt(LowerAscii(s), Word, 0);
    NoDigitsNoVersion(s);
  }

  /** A tag without a Generator name never decides, however it reads. */
  lemma OtherTagsAreIgnored(metas: seq<MetaTag>, m: MetaTag, url: string)
    requires !IsGenerator(m)
    ensures CheckSitefinitySite([m] + metas, url) == CheckSitefinitySite(metas, url)
  {
    assert ([m] + metas)[1..] == metas;
  }

  /** A tag without a Generator name changes nothing wherever it stands among the others. */
  lemma {:induction false} OtherTagsAreIgnoredAnywhere(pre: seq<MetaTag>, m: MetaTag, post: seq<MetaTag>, url: string)
    requires !IsGenerator(m)
    ensures CheckSitefinitySite(pre + [m] + post, url) == CheckSitefinitySite(pre + post, url)
  {
    if pre == [] {
      assert pre + [m] + post == [m] + post;
      assert pre + post == post;
      OtherTagsAreIgnored(post, m, url);
    } else {
      OtherTagsAreIgnoredAnywhere(pre[1..], m, post, url);
      assert (pre + [m] + post)[0] == pre[0] == (pre + post)[0];
      assert (pre + [m] + post)[1..] == pre[1..] + [m] + post;
      assert (pre + post)[1..] == pre[1..] + post;
    }
  }

  /** The reply to `checkSitefinity` is the answer computed at load time, and the icon
      message agrees with it; any other action gets no reply. */
  lemma ReplyIsLoadTimeAnswer(metas: seq<MetaTag>, url: string, action: string)
    ensures OnMessage(Load(metas, url), action) ==
            if action == "checkSitefinity" then Some(CheckSitefinitySite(metas, url)) else None
    ensures Load(metas, url).sent.isSitefinity == CheckSitefinitySite(metas, url).Sitefinity?
  {
  }
}
