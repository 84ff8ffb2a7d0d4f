/**
 * The two fixed link patterns of the issue-search stage, hand-coded with the
 * semantics Go's `regexp` gives them (github.go:57-62):
 *
 *   Ipfs:      (?i)https?:\/\/ipfs\.io\/ipfs\/\w{46}
 *   Telegraph: (?i)https?:\/\/telegra\.ph\/.+?\-\d{2}\-\d{2}
 *
 * `MatchAt` is the match (leftmost-first: `s?` greedy, `.+?` lazy) that starts
 * at one position, `NextMatch` the leftmost one from a position on, and
 * `FindAll` is `FindAllString(text, -1)`: successive non-overlapping matches.
 */
module Patterns {
  import opened Wrappers

  datatype Pattern = Ipfs | Telegraph

  /** The number of word characters after the IPFS path: `\w{46}`. */
  const IdLength := 46

  /** Everything after `http://` or `https://` that the pattern spells literally. */
  function Host(p: Pattern): string {
    match p
    case Ipfs => "ipfs.io/ipfs/"
    case Telegraph => "telegra.ph/"
  }

  /**
   * Under `(?i)` a pattern letter matches every member of its simple case-folding
   * orbit: the other ASCII case, and also U+017F for `s` and U+212A for `k`.
   * `lit` is written in lower case.
   */
  predicate FoldEq(c: char, lit: char) {
    if 'a' <= lit <= 'z' then
      c == lit || c as int == lit as int - 32
      || (lit == 's' && c == '\U{017F}') || (lit == 'k' && c == '\U{212A}')
    else c == lit
  }

  /** `lit` occurs at position `i` of `s`, letters compared case-insensitively. */
  predicate LitAt(s: string, i: nat, lit: string)
    decreases |lit|
    ensures LitAt(s, i, lit) ==> i + |lit| <= |s|
  {
    if lit == [] then i <= |s|
    else i < |s| && FoldEq(s[i], lit[0]) && LitAt(s, i + 1, lit[1..])
  }

  /** `LitAt` compares character by character. */
  lemma {:induction false} LitAtChars(s: string, i: nat, lit: string)
    decreases |lit|
    ensures LitAt(s, i, lit) <==> i + |lit| <= |s| && forall k :: 0 <= k < |lit| ==> FoldEq(s[i + k], lit[k])
  {
    if lit != [] {
      LitAtChars(s, i + 1, lit[1..]);
      if i + |lit| <= |s| && forall k :: 0 <= k < |lit| ==> FoldEq(s[i + k], lit[k]) {
        forall k | 0 <= k < |lit| - 1 ensures FoldEq(s[i + 1 + k], lit[1..][k]) {
          assert FoldEq(s[i + (k + 1)], lit[k + 1]);
        }
      }
    }
  }

  /** `https://` and `http://` cannot both start at one position: `s` is not `:`. */
  lemma SchemesExclusive(s: string, i: nat, host: string)
    ensures !(LitAt(s, i, "https://" + host) && LitAt(s, i, "http://" + host))
  {
    var secure, plain := "https://" + host, "http://" + host;
    assert secure[4] == 's' && plain[4] == ':';
    LitAtChars(s, i, secure);
    LitAtChars(s, i, plain);
  }

  /**
   * `https?:\/\/<host>` at position `i`: the position just after it. The greedy
   * `s?` is tried first; the two alternatives exclude each other, since the
   * character after `http` is either an `s` or a `:`.
   */
  function SchemeEnd(s: string, i: nat, host: string): (r: Option<nat>)
    ensures r.Some? ==> i + 7 + |host| <= r.value <= |s|
    ensures r == Some(i + 8 + |host|) <==> LitAt(s, i, "https://" + host)
    ensures r == Some(i + 7 + |host|) <==> LitAt(s, i, "http://" + host)
    ensures r.None? <==> !LitAt(s, i, "https://" + host) && !LitAt(s, i, "http://" + host)
  {
    SchemesExclusive(s, i, host);
    if LitAt(s, i, "https://" + host) then Some(i + 8 + |host|)
    else if LitAt(s, i, "http://" + host) then Some(i + 7 + |host|)
    else None
  }

  /** `\w` under `(?i)`: ASCII letters, digits, `_`, and the two folds U+017F and U+212A. */
  predicate IsWord(c: char) {
    'a' <= c <= 'z' || 'A' <= c <= 'Z' || '0' <= c <= '9' || c == '_'
    || c == '\U{017F}' || c == '\U{212A}'
  }

  predicate IsDigit(c: char) {
    '0' <= c <= '9'
  }

  /** `n` word characters start at position `i`. */
  predicate WordsAt(s: string, i: nat, n: nat) {
    i + n <= |s| && forall k :: i <= k < i + n ==> IsWord(s[k])
  }

  /** `\-\d{2}\-\d{2}` starts at position `j`. */
  predicate DateAt(s: string, j: nat) {
    j + 6 <= |s| && s[j] == '-' && IsDigit(s[j + 1]) && IsDigit(s[j + 2])
    && s[j + 3] == '-' && IsDigit(s[j + 4]) && IsDigit(s[j + 5])
  }

  /** No newline among `s[from..to]`; `.` does not match `\n` without the `s` flag. */
  ghost predicate NoNewline(s: string, from: nat, to: nat) {
    forall k :: from <= k < to && k < |s| ==> s[k] != '\n'
  }

  /** A date is the same whether read in a piece of the text or in the whole. */
  lemma DateAtSlice(s: string, i: nat, e: nat, k: nat)
    requires i <= e <= |s|
    ensures k + 6 <= e - i ==> (DateAt(s[i..e], k) <==> DateAt(s, i + k))
  {
  }

  /**
   * The lazy `.+?` followed by the date: `j` is the position after the
   * characters `.+?` has consumed so far. It stops at the first date it meets
   * and fails at a newline or the end of the text.
   */
  function SlugEnd(s: string, j: nat): (r: Option<nat>)
    requires j <= |s|
    decreases |s| - j
    ensures r.Some? ==> j + 6 <= r.value <= |s|
  {
    if DateAt(s, j) then Some(j + 6)
    else if j < |s| && s[j] != '\n' then SlugEnd(s, j + 1)
    else None
  }

  /**
   * `SlugEnd` ends at the first date with no newline before it, and fails only
   * when every date from `j` on has a newline before it.
   */
  lemma {:induction false} SlugEndSpec(s: string, j: nat)
    requires j <= |s|
    decreases |s| - j
    ensures SlugEnd(s, j).Some? ==> DateAt(s, SlugEnd(s, j).value - 6)
    ensures SlugEnd(s, j).Some? ==> NoNewline(s, j, SlugEnd(s, j).value - 6)
    ensures SlugEnd(s, j).Some? ==> forall k :: j <= k < SlugEnd(s, j).value - 6 ==> !DateAt(s, k)
    ensures SlugEnd(s, j).None? ==> forall d :: j <= d && DateAt(s, d) ==> !NoNewline(s, j, d)
  {
    if !DateAt(s, j) && j < |s| && s[j] != '\n' {
      SlugEndSpec(s, j + 1);
    }
  }

  /** Conversely, the first date with no newline before it is where `SlugEnd` ends. */
  lemma {:induction false} SlugEndAtFirstDate(s: string, j: nat, d: nat)
    requires j <= d && DateAt(s, d) && NoNewline(s, j, d)
    requires forall k :: j <= k < d ==> !DateAt(s, k)
    decreases d - j
    ensures SlugEnd(s, j) == Some(d + 6)
  {
    if j < d {
      SlugEndAtFirstDate(s, j + 1, d);
    }
  }

  /** The end of the match of `p` that starts at position `i`, if there is one. */
  function MatchAt(p: Pattern, s: string, i: nat): (r: Option<nat>)
    ensures r.Some? ==> i < r.value <= |s|
  {
    match SchemeEnd(s, i, Host(p))
    case None => None
    case Some(q) =>
      if p.Ipfs? then (if WordsAt(s, q, IdLength) then Some(q + IdLength) else None)
      else if q < |s| && s[q] != '\n' then SlugEnd(s, q + 1)
      else None
  }

  /** The leftmost match at or after `from`, as (start, end). */
  function NextMatch(p: Pattern, s: string, from: nat): (r: Option<(nat, nat)>)
    decreases |s| - from
    ensures r.Some? ==> from <= r.value.0 < r.value.1 <= |s| && MatchAt(p, s, r.value.0) == Some(r.value.1)
  {
    if from >= |s| then None
    else match MatchAt(p, s, from)
      case Some(e) => Some((from, e))
      case None => NextMatch(p, s, from + 1)
  }

  /** No match of `p` starts in `[from, to)`. */
  ghost predicate NoMatchIn(p: Pattern, s: string, from: nat, to: nat) {
    forall j :: from <= j < to ==> MatchAt(p, s, j).None?
  }

  /** `NextMatch` is leftmost: it skips only positions where no match starts. */
  lemma {:induction false} NextMatchIsLeftmost(p: Pattern, s: string, from: nat)
    decreases |s| - from
    ensures NextMatch(p, s, from).Some? ==> NoMatchIn(p, s, from, NextMatch(p, s, from).value.0)
    ensures NextMatch(p, s, from).None? ==> NoMatchIn(p, s, from, |s|)
  {
    if from < |s| {
      var here := MatchAt(p, s, from);
      if here.None? {
        var next := NextMatch(p, s, from + 1);
        assert NextMatch(p, s, from) == next;
        NextMatchIsLeftmost(p, s, from + 1);
        var to := if next.Some? then next.value.0 else |s|;
        assert NoMatchIn(p, s, from + 1, to);
        assert NoMatchIn(p, s, from, to);
      }
    }
  }

  /** `FindAllString(s[from..], -1)`: every match, left to right, none overlapping. */
  function FindAll(p: Pattern, s: string, from: nat): (r: seq<string>)
    requires from <= |s|
    decreases |s| - from
    ensures r == [] <==> NextMatch(p, s, from).None?
    ensures |r| <= |s| - from
  {
    match NextMatch(p, s, from)
    case None => []
    case Some((i, e)) => [s[i..e]] + FindAll(p, s, e)
  }

  /**
   * A whole link of pattern `p`, stated on the link alone. IPFS: the prefix and
   * exactly 46 word characters. Telegraph: the prefix, at least one character
   * and no newline before a date that ends the link, and no earlier date after
   * the first character (the lazy `.+?` stops at the first one).
   */
  ghost predicate IsLink(p: Pattern, m: string) {
    match SchemeEnd(m, 0, Host(p))
    case None => false
    case Some(h) =>
      if p.Ipfs? then |m| == h + IdLength && WordsAt(m, h, IdLength)
      else
        && h + 7 <= |m|
        && DateAt(m, |m| - 6)
        && NoNewline(m, h, |m| - 6)
        && forall k :: h < k < |m| - 6 ==> !DateAt(m, k)
  }

  /** Looking at a prefix of the text from `i` on gives the same prefix check. */
  lemma SchemeEndSlice(s: string, i: nat, e: nat, host: string)
    requires i <= e <= |s|
    ensures SchemeEnd(s[i..e], 0, host).Some? ==> SchemeEnd(s, i, host) == Some(i + SchemeEnd(s[i..e], 0, host).value)
    ensures SchemeEnd(s, i, host).Some? && SchemeEnd(s, i, host).value <= e ==>
      SchemeEnd(s[i..e], 0, host) == Some(SchemeEnd(s, i, host).value - i)
  {
    var m := s[i..e];
    var secure, plain := "https://" + host, "http://" + host;
    assert secure[4] == 's' && plain[4] == ':';
    LitAtChars(m, 0, secure);
    LitAtChars(m, 0, plain);
    LitAtChars(s, i, secure);
    LitAtChars(s, i, plain);
    if LitAt(m, 0, secure) {
      assert LitAt(s, i, secure) by {
        forall k | 0 <= k < |secure| ensures FoldEq(s[i + k], secure[k]) {
          assert m[k] == s[i + k];
        }
      }
    } else if LitAt(m, 0, plain) {
      assert !LitAt(s, i, secure) by {
        assert m[4] == s[i + 4] == ':';
      }
      assert LitAt(s, i, plain) by {
        forall k | 0 <= k < |plain| ensures FoldEq(s[i + k], plain[k]) {
          assert m[k] == s[i + k];
        }
      }
    }
    if LitAt(s, i, secure) && i + |secure| <= e {
      assert LitAt(m, 0, secure) by {
        forall k | 0 <= k < |secure| ensures FoldEq(m[k], secure[k]) {
          assert m[k] == s[i + k];
        }
      }
    } else if !LitAt(s, i, secure) && LitAt(s, i, plain) && i + |plain| <= e {
      assert LitAt(m, 0, plain) by {
        forall k | 0 <= k < |plain| ensures FoldEq(m[k], plain[k]) {
          assert m[k] == s[i + k];
        }
      }
    }
  }

  /** A match is exactly a link: `MatchAt` finds `s[i..e]` if and only if it is one. */
  lemma MatchAtIsLink(p: Pattern, s: string, i: nat, e: nat)
    ensures MatchAt(p, s, i) == Some(e) <==> i < e <= |s| && IsLink(p, s[i..e])
  {
    if MatchAt(p, s, i) == Some(e) {
      var q := SchemeEnd(s, i, Host(p)).value;
      SchemeEndSlice(s, i, e, Host(p));
      MatchIsLinkTail(p, s, i, e, q);
    }
    if i < e <= |s| && IsLink(p, s[i..e]) {
      SchemeEndSlice(s, i, e, Host(p));
      var h := SchemeEnd(s[i..e], 0, Host(p)).value;
      LinkIsMatchTail(p, s, i, e, i + h);
    }
  }

  lemma MatchIsLinkTail(p: Pattern, s: string, i: nat, e: nat, q: nat)
    requires MatchAt(p, s, i) == Some(e) && SchemeEnd(s, i, Host(p)) == Some(q)
    requires SchemeEnd(s[i..e], 0, Host(p)) == Some(q - i)
    ensures IsLink(p, s[i..e])
  {
    var m := s[i..e];
    var h := q - i;
    if p.Ipfs? {
      forall k | h <= k < h + IdLength ensures IsWord(m[k]) {
        assert m[k] == s[i + k];
      }
    } else {
      SlugEndSpec(s, q + 1);
      DateAtSlice(s, i, e, |m| - 6);
      forall k | h <= k < |m| - 6 ensures m[k] != '\n' {
        assert m[k] == s[i + k];
      }
      forall k | h < k < |m| - 6 ensures !DateAt(m, k) {
        DateAtSlice(s, i, e, k);
      }
    }
  }

  lemma LinkIsMatchTail(p: Pattern, s: string, i: nat, e: nat, q: nat)
    requires i < e <= |s| && IsLink(p, s[i..e]) && SchemeEnd(s, i, Host(p)) == Some(q)
    requires SchemeEnd(s[i..e], 0, Host(p)) == Some(q - i)
    ensures MatchAt(p, s, i) == Some(e)
  {
    var m := s[i..e];
    var h := q - i;
    if p.Ipfs? {
      forall k | q <= k < q + IdLength ensures IsWord(s[k]) {
        assert m[k - i] == s[k];
      }
    } else {
      assert s[q] != '\n' by { assert m[h] == s[q]; }
      var d := e - 6;
      DateAtSlice(s, i, e, |m| - 6);
      assert NoNewline(s, q + 1, d) by {
        forall k | q + 1 <= k < d ensures s[k] != '\n' {
          assert m[k - i] == s[k];
        }
      }
      forall k | q + 1 <= k < d ensures !DateAt(s, k) {
        DateAtSlice(s, i, e, k - i);
      }
      SlugEndAtFirstDate(s, q + 1, d);
    }
  }

  /** Every match has a `:` right after `http` or `https`. */
  lemma MatchNeedsColon(p: Pattern, s: string, i: nat)
    requires MatchAt(p, s, i).Some?
    ensures i + 5 < |s| && (s[i + 4] == ':' || s[i + 5] == ':')
  {
    var secure, plain := "https://" + Host(p), "http://" + Host(p);
    assert secure[5] == ':' && plain[4] == ':';
    LitAtChars(s, i, secure);
    LitAtChars(s, i, plain);
    if LitAt(s, i, secure) {
      assert FoldEq(s[i + 5], secure[5]);
    } else {
      assert FoldEq(s[i + 4], plain[4]);
    }
  }

  /** No match starts in `[from, to)` when no `:` is where it would have to be. */
  lemma NoColonNoMatch(p: Pattern, s: string, from: nat, to: nat)
    requires forall k :: from + 4 <= k < to + 5 && k < |s| ==> s[k] != ':'
    ensures forall i :: from <= i < to ==> MatchAt(p, s, i).None?
  {
    forall i | from <= i < to ensures MatchAt(p, s, i).None? {
      if MatchAt(p, s, i).Some? {
        MatchNeedsColon(p, s, i);
      }
    }
  }

  /** Positions without a match can be skipped. */
  lemma {:induction false} SkipNoMatch(p: Pattern, s: string, from: nat, to: nat)
    requires from <= to
    requires forall i :: from <= i < to ==> MatchAt(p, s, i).None?
    ensures NextMatch(p, s, from) == NextMatch(p, s, to)
    decreases (to as int) - (from as int)
  {
    if from < to && from < |s| {
      SkipNoMatch(p, s, from + 1, to);
    }
  }

  /** What `FindAll` returns are whole links of the pattern. */
  lemma {:induction false} FindAllAreLinks(p: Pattern, s: string, from: nat)
    requires from <= |s|
    ensures forall m :: m in FindAll(p, s, from) ==> IsLink(p, m)
    decreases |s| - from
  {
    match NextMatch(p, s, from)
    case None =>
    case Some((i, e)) =>
      MatchAtIsLink(p, s, i, e);
      FindAllAreLinks(p, s, e);
  }

  /** The first link of a text is its leftmost one: no link starts earlier. */
  lemma FirstIsLeftmost(p: Pattern, s: string, i: nat, e: nat)
    requires NextMatch(p, s, 0) == Some((i, e))
    ensures FindAll(p, s, 0) != [] && FindAll(p, s, 0)[0] == s[i..e]
    ensures forall j: nat, f :: j < i && j < f <= |s| ==> !IsLink(p, s[j..f])
  {
    NextMatchIsLeftmost(p, s, 0);
    forall j: nat, f: nat | j < i && j < f <= |s| ensures !IsLink(p, s[j..f]) {
      MatchAtIsLink(p, s, j, f);
    }
  }

  /** A link found in some text is found whole in itself: matching is idempotent. */
  lemma LinkMatchesItself(p: Pattern, m: string)
    requires IsLink(p, m)
    ensures FindAll(p, m, 0) == [m]
  {
    assert m[0..|m|] == m;
    MatchAtIsLink(p, m, 0, |m|);
    assert NextMatch(p, m, 0) == Some((0, |m|));
  }
}
