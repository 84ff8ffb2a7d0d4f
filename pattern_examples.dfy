/**
 * What the patterns match, stated as lemmas on the issue body of the repository's own test fixture
 * (playback_test.go:69) and on the boundary cases around it. Long literals
 * are written as concatenations of short pieces.
 */
module PatternExamples {
  import opened Wrappers
  import opened Patterns

  /** The 59-character content identifier of the fixture. */
  const FixtureId := "bafybeibndw52abcyf5i" + "672uw123fh2l6ifhwjac" + "js56fhjk4udeflejrqi"

  const FixtureIpfsLink := "https://ipfs.io/ipfs/" + FixtureId

  const FixtureTelegraphLink := "https://telegra.ph/" + "Example-01-01"

  /** The `body` field of the fixture's only issue: both links, two spaces apart. */
  const FixtureBody := FixtureIpfsLink + "  " + FixtureTelegraphLink

  lemma FoldEqRefl(c: char)
    ensures FoldEq(c, c)
  {
  }

  /** A piece of literal text without a colon. */
  predicate ColonFree(t: string) {
    forall k :: 0 <= k < |t| ==> t[k] != ':'
  }

  /** A piece of literal text made of word characters only. */
  predicate AllWords(t: string) {
    forall k :: 0 <= k < |t| ==> IsWord(t[k])
  }

  lemma AllWordsJoin(a: string, b: string)
    requires AllWords(a) && AllWords(b)
    ensures AllWords(a + b)
  {
    forall k | |a| <= k < |a| + |b| ensures IsWord((a + b)[k]) {
      assert (a + b)[k] == b[k - |a|];
    }
  }

  lemma FixtureIdWords()
    ensures |FixtureId| == 59 && AllWords(FixtureId)
  {
    var a, b, c := "bafybeibndw52abcyf5i", "672uw123fh2l6ifhwjac", "js56fhjk4udeflejrqi";
    assert AllWords(a);
    assert AllWords(b);
    assert AllWords(c);
    AllWordsJoin(a, b);
    AllWordsJoin(a + b, c);
  }

  /** A colon-free tail of `a` stays colon-free when a colon-free `b` follows. */
  lemma ColonFreeAfter(a: string, b: string, from: nat)
    requires from <= |a| && ColonFree(b)
    requires forall k :: from <= k < |a| ==> a[k] != ':'
    ensures forall k :: from <= k < |a| + |b| ==> (a + b)[k] != ':'
  {
    forall k | |a| <= k < |a| + |b| ensures (a + b)[k] != ':' {
      assert (a + b)[k] == b[k - |a|];
    }
  }

  lemma FixtureIdColonFree()
    ensures |FixtureId| == 59 && ColonFree(FixtureId)
  {
    var a, b, c := "bafybeibndw52abcyf5i", "672uw123fh2l6ifhwjac", "js56fhjk4udeflejrqi";
    assert ColonFree(a) && ColonFree(b) && ColonFree(c);
    assert FixtureId == a + b + c;
  }

  lemma IpfsLinkColons()
    ensures |FixtureIpfsLink| == 80 && FixtureIpfsLink[5] == ':'
    ensures forall k :: 6 <= k < 80 ==> FixtureIpfsLink[k] != ':'
  {
    FixtureIdColonFree();
    var prefix := "https://ipfs.io/ipfs/";
    assert |prefix| == 21 && prefix[5] == ':';
    assert forall k :: 6 <= k < 21 ==> prefix[k] != ':';
    ColonFreeAfter(prefix, FixtureId, 6);
  }

  lemma TelegraphLinkColons()
    ensures |FixtureTelegraphLink| == 32 && FixtureTelegraphLink[5] == ':'
    ensures forall k :: 0 <= k < 32 && k != 5 ==> FixtureTelegraphLink[k] != ':'
  {
    var prefix, slug := "https://telegra.ph/", "Example-01-01";
    assert |prefix| == 19 && prefix[5] == ':';
    assert forall k :: 0 <= k < 19 && k != 5 ==> prefix[k] != ':';
    assert ColonFree(slug);
    ColonFreeAfter(prefix, slug, 6);
  }

  /** Two links, each with its only colon at 5, joined by a colon-free gap. */
  lemma TwoLinkColons(a: string, gap: string, b: string)
    requires |a| >= 6 && a[5] == ':' && forall k :: 6 <= k < |a| ==> a[k] != ':'
    requires ColonFree(gap)
    requires |b| >= 6 && b[5] == ':' && forall k :: 0 <= k < |b| && k != 5 ==> b[k] != ':'
    ensures (a + gap + b)[5] == ':' && (a + gap + b)[|a| + |gap| + 5] == ':'
    ensures forall k :: 6 <= k < |a| + |gap| + 5 ==> (a + gap + b)[k] != ':'
    ensures forall k :: |a| + |gap| + 6 <= k < |a| + |gap| + |b| ==> (a + gap + b)[k] != ':'
  {
    ColonFreeAfter(a, gap, 6);
    forall k | |a| + |gap| <= k < |a| + |gap| + |b| ensures (a + gap + b)[k] == b[k - |a| - |gap|] {
    }
  }

  /** The fixture's `:` characters are at positions 5 and 87 only. */
  lemma FixtureColons()
    ensures |FixtureBody| == 114
    ensures FixtureBody[5] == ':' && FixtureBody[87] == ':'
    ensures forall k :: 6 <= k < 87 ==> FixtureBody[k] != ':'
    ensures forall k :: 88 <= k < 114 ==> FixtureBody[k] != ':'
  {
    IpfsLinkColons();
    TelegraphLinkColons();
    TwoLinkColons(FixtureIpfsLink, "  ", FixtureTelegraphLink);
  }

  /** Every match begins with an `h` in either case. */
  lemma NoMatchAfterH(p: Pattern, s: string, i: nat)
    requires i < |s| && !FoldEq(s[i], 'h')
    ensures MatchAt(p, s, i).None?
  {
    LitAtChars(s, i, "https://" + Host(p));
    LitAtChars(s, i, "http://" + Host(p));
    assert ("https://" + Host(p))[0] == 'h' && ("http://" + Host(p))[0] == 'h';
  }

  /** `https://` and the host, letter for letter, is the secure prefix. */
  lemma SecurePrefix(s: string, i: nat, host: string)
    requires i + 8 + |host| <= |s| && s[i..i + 8 + |host|] == "https://" + host
    ensures SchemeEnd(s, i, host) == Some(i + 8 + |host|)
  {
    var secure := "https://" + host;
    LitAtChars(s, i, secure);
    forall k | 0 <= k < |secure| ensures FoldEq(s[i + k], secure[k]) {
      assert s[i + k] == s[i..i + |secure|][k];
      FoldEqRefl(s[i + k]);
    }
  }

  /**
   * No match at `i` when the text differs from the secure prefix at offset `k`
   * and has no `:` right after `http`.
   */
  lemma NoSchemeAt(p: Pattern, s: string, i: nat, k: nat)
    requires k < |"https://" + Host(p)| && i + k < |s| && i + 4 < |s|
    requires !FoldEq(s[i + k], ("https://" + Host(p))[k])
    requires !FoldEq(s[i + 4], ':')
    ensures MatchAt(p, s, i).None?
  {
    LitAtChars(s, i, "https://" + Host(p));
    LitAtChars(s, i, "http://" + Host(p));
    assert ("http://" + Host(p))[4] == ':';
  }

  lemma FixtureIpfsFirst()
    ensures MatchAt(Ipfs, FixtureBody, 0) == Some(67)
  {
    var s := FixtureBody;
    assert s[0..21] == "https://" + Host(Ipfs);
    SecurePrefix(s, 0, Host(Ipfs));
    FixtureIdWords();
    assert forall k :: 0 <= k < 59 ==> s[21 + k] == FixtureId[k];
    assert WordsAt(s, 21, IdLength);
  }

  lemma FixtureIpfsRest()
    ensures NextMatch(Ipfs, FixtureBody, 67).None?
  {
    var s := FixtureBody;
    FixtureColons();
    NoColonNoMatch(Ipfs, s, 67, 82);
    assert s[90] == 't';
    NoSchemeAt(Ipfs, s, 82, 8);
    NoMatchAfterH(Ipfs, s, 83);
    NoColonNoMatch(Ipfs, s, 84, 114);
    SkipNoMatch(Ipfs, s, 67, 114);
  }

  /**
   * The IPFS pattern finds one link in the fixture: its identifier cut to the
   * first 46 characters, since `\w{46}` stops there.
   */
  lemma FixtureIpfsMatch()
    ensures FindAll(Ipfs, FixtureBody, 0) == ["https://ipfs.io/ipfs/" + "bafybeibndw52abcyf5i" + "672uw123fh2l6ifhwjac" + "js56fh"]
  {
    var s := FixtureBody;
    FixtureIpfsFirst();
    FixtureIpfsRest();
    assert NextMatch(Ipfs, s, 0) == Some((0, 67));
    assert FindAll(Ipfs, s, 67) == [];
    assert s[0..67] == "https://ipfs.io/ipfs/" + "bafybeibndw52abcyf5i" + "672uw123fh2l6ifhwjac" + "js56fh";
  }

  /** At 0 the IPFS link starts: `https://` is there, `telegra.ph/` is not. */
  lemma FixtureTelegraphNotAt0()
    ensures MatchAt(Telegraph, FixtureBody, 0).None?
  {
    var s := FixtureBody;
    assert s[8] == 'i' && s[4] == 's';
    NoSchemeAt(Telegraph, s, 0, 8);
  }

  lemma FixtureTelegraphBefore()
    ensures NextMatch(Telegraph, FixtureBody, 0) == NextMatch(Telegraph, FixtureBody, 82)
  {
    var s := FixtureBody;
    FixtureColons();
    FixtureTelegraphNotAt0();
    NoMatchAfterH(Telegraph, s, 1);
    NoColonNoMatch(Telegraph, s, 2, 82);
    SkipNoMatch(Telegraph, s, 0, 82);
  }

  lemma FixtureTelegraphScheme()
    ensures SchemeEnd(FixtureBody, 82, Host(Telegraph)) == Some(101)
  {
    var s := FixtureBody;
    assert s[82..101] == "https://" + Host(Telegraph);
    SecurePrefix(s, 82, Host(Telegraph));
  }

  /** `.+?` consumes `E`, then stops at the first date, at 108. */
  lemma FixtureTelegraphSlug()
    ensures |FixtureBody| == 114 && FixtureBody[101] != '\n'
    ensures SlugEnd(FixtureBody, 102) == Some(114)
  {
    var s := FixtureBody;
    assert s[101..] == "Example-01-01";
    assert DateAt(s, 108);
    assert NoNewline(s, 102, 108);
    assert forall k :: 102 <= k < 108 ==> !DateAt(s, k);
    SlugEndAtFirstDate(s, 102, 108);
  }

  lemma FixtureTelegraphAt()
    ensures MatchAt(Telegraph, FixtureBody, 82) == Some(114)
  {
    FixtureTelegraphScheme();
    FixtureTelegraphSlug();
  }

  lemma FixtureTelegraphSlice()
    ensures |FixtureBody| == 114 && FixtureBody[82..114] == FixtureTelegraphLink
  {
    var a, b := FixtureIpfsLink + "  ", FixtureTelegraphLink;
    assert |a| == 82 && |b| == 32;
    assert (a + b)[|a|..] == b;
  }

  /**
   * The Telegraph pattern finds one link in the fixture, ending at its date:
   * `https://telegra.ph/Example-01-01`.
   */
  lemma FixtureTelegraphMatch()
    ensures FindAll(Telegraph, FixtureBody, 0) == [FixtureTelegraphLink]
  {
    var s := FixtureBody;
    FixtureTelegraphBefore();
    FixtureTelegraphAt();
    assert NextMatch(Telegraph, s, 0) == Some((82, 114));
    assert FindAll(Telegraph, s, 114) == [];
    FixtureTelegraphSlice();
  }

  /** Without the date suffix there is no Telegraph link at all. */
  lemma TelegraphNeedsDate()
    ensures FindAll(Telegraph, "https://telegra.ph/" + "Example", 0) == []
  {
    var s := "https://telegra.ph/" + "Example";
    assert forall k :: 6 <= k < |s| ==> s[k] != ':';
    var r := SlugEnd(s, 20);
    SlugEndSpec(s, 20);
    assert forall d :: 20 <= d ==> !DateAt(s, d);
    assert MatchAt(Telegraph, s, 0).None?;
    NoMatchAfterH(Telegraph, s, 1);
    NoColonNoMatch(Telegraph, s, 2, |s|);
    SkipNoMatch(Telegraph, s, 0, |s|);
  }

  /** The fixture's IPFS link with a 45-character identifier. */
  const ShortIdLink := "https://ipfs.io/ipfs/" + "bafybeibndw52abcyf5i" + "672uw123fh2l6ifhwjac" + "js56f"

  lemma ShortIdColons()
    ensures |ShortIdLink| == 66
    ensures forall k :: 6 <= k < 66 ==> ShortIdLink[k] != ':'
  {
    var prefix, a, b, c := "https://ipfs.io/ipfs/", "bafybeibndw52abcyf5i", "672uw123fh2l6ifhwjac", "js56f";
    assert forall k :: 6 <= k < 21 ==> prefix[k] != ':';
    assert ColonFree(a) && ColonFree(b) && ColonFree(c);
    ColonFreeAfter(prefix, a, 6);
    ColonFreeAfter(prefix + a, b, 6);
    ColonFreeAfter(prefix + a + b, c, 6);
  }

  lemma ShortIdPrefix()
    ensures |ShortIdLink| == 66 && ShortIdLink[0..21] == "https://" + Host(Ipfs)
  {
    var prefix := "https://ipfs.io/ipfs/";
    assert ShortIdLink[0..21] == prefix;
    assert prefix == "https://" + Host(Ipfs);
  }

  /** A 45-character identifier is too short for `\w{46}`. */
  lemma IpfsShortIdRejected()
    ensures FindAll(Ipfs, ShortIdLink, 0) == []
  {
    var s := ShortIdLink;
    ShortIdColons();
    ShortIdPrefix();
    SecurePrefix(s, 0, Host(Ipfs));
    assert !WordsAt(s, 21, IdLength);
    assert MatchAt(Ipfs, s, 0).None?;
    NoMatchAfterH(Ipfs, s, 1);
    NoColonNoMatch(Ipfs, s, 2, |s|);
    SkipNoMatch(Ipfs, s, 0, |s|);
  }
}
