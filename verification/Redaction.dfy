/** The log redactor: four chained global rewrites (crates/core/src/sanitize.rs). */
module Redaction {
  import opened Common
  import opened Text

  /** The four regular expressions. */
  datatype Pattern = HttpUrl | TelegramUrl | Bearer | FileId

  function AsciiLower(c: char): char {
    if 'A' <= c <= 'Z' then c - 'A' + 'a' else c
  }

  predicate EqualsIgnoringCase(s: string, literal: string) {
    |s| == |literal| && forall i | 0 <= i < |s| :: AsciiLower(s[i]) == literal[i]
  }

  /** The part of a pattern before its character classes. No letter of the two case-insensitive ones has a
      non-ASCII case variant. */
  predicate IsLiteral(p: Pattern, s: string) {
    match p
    case HttpUrl => s == "http://" || s == "https://"
    case TelegramUrl => s == "tg://" || s == "t.me/"
    case Bearer => EqualsIgnoringCase(s, "bearer")
    case FileId => EqualsIgnoringCase(s, "file_id")
  }

  predicate HasSeparator(p: Pattern) {
    p.Bearer? || p.FileId?
  }

  predicate IsSeparator(p: Pattern, c: char) {
    match p
    case Bearer => IsSpace(c)
    case FileId => IsSpace(c) || c == '=' || c == ':'
    case _ => false
  }

  /** `[A-Za-z0-9_-]`; under `(?i)` the letters include the long s and the Kelvin sign. */
  predicate IsIdChar(c: char) {
    || 'a' <= c <= 'z' || 'A' <= c <= 'Z' || '0' <= c <= '9' || c == '_' || c == '-'
    || c == '\U{017F}' || c == '\U{212A}'
  }

  predicate IsBody(p: Pattern, c: char) {
    match p
    case HttpUrl => !IsSpace(c)
    case TelegramUrl => !IsSpace(c)
    case Bearer => IsIdChar(c) || c == '.'
    case FileId => IsIdChar(c)
  }

  function MinBody(p: Pattern): nat {
    if p.FileId? then 20 else 1
  }

  function Token(p: Pattern): string {
    match p
    case HttpUrl => "[url]"
    case TelegramUrl => "[url]"
    case Bearer => "[token]"
    case FileId => "[file_id]"
  }

  /** `s` is a literal up to `a`, separators up to `b`, and a body. */
  predicate MatchesAt(p: Pattern, s: string, a: nat, b: nat) {
    && a <= b <= |s|
    && IsLiteral(p, s[..a])
    && (if HasSeparator(p) then a < b else a == b)
    && (forall i | a <= i < b :: IsSeparator(p, s[i]))
    && (forall i | b <= i < |s| :: IsBody(p, s[i]))
    && MinBody(p) <= |s| - b
  }

  /** `s` is in the language of the pattern. */
  ghost predicate Matches(p: Pattern, s: string) {
    exists a: nat, b: nat :: MatchesAt(p, s, a, b)
  }

  /** No part of `s` is in the language of the pattern. */
  ghost predicate Free(p: Pattern, s: string) {
    forall i, j | 0 <= i <= j <= |s| :: !Matches(p, s[i..j])
  }

  // ----- the leftmost-first, greedy matcher ------------------------------------------------

  function LiteralLength(p: Pattern, s: string): nat {
    match p
    case HttpUrl => if "http://" <= s then 7 else if "https://" <= s then 8 else 0
    case TelegramUrl => if "tg://" <= s then 5 else if "t.me/" <= s then 5 else 0
    case Bearer => if |s| >= 6 && EqualsIgnoringCase(s[..6], "bearer") then 6 else 0
    case FileId => if |s| >= 7 && EqualsIgnoringCase(s[..7], "file_id") then 7 else 0
  }

  /** Where the run of separators that starts at `from` ends. */
  function SeparatorsEnd(p: Pattern, s: string, from: nat): (end: nat)
    requires from <= |s|
    ensures from <= end <= |s|
    ensures forall i | from <= i < end :: IsSeparator(p, s[i])
    ensures end < |s| ==> !IsSeparator(p, s[end])
    decreases |s| - from
  {
    if from < |s| && IsSeparator(p, s[from]) then SeparatorsEnd(p, s, from + 1) else from
  }

  function BodyEnd(p: Pattern, s: string, from: nat): (end: nat)
    requires from <= |s|
    ensures from <= end <= |s|
    ensures forall i | from <= i < end :: IsBody(p, s[i])
    ensures end < |s| ==> !IsBody(p, s[end])
    decreases |s| - from
  {
    if from < |s| && IsBody(p, s[from]) then BodyEnd(p, s, from + 1) else from
  }

  /** The length of the match at the front of `s`, or 0. Separators and bodies share no character, so greedy
      matching never has to give anything back. */
  function MatchLength(p: Pattern, s: string): (n: nat)
    ensures n <= |s|
  {
    var a := LiteralLength(p, s);
    if a == 0 then 0
    else
      var b := if HasSeparator(p) then SeparatorsEnd(p, s, a) else a;
      if HasSeparator(p) && b == a then 0
      else
        var end := BodyEnd(p, s, b);
        if end - b < MinBody(p) then 0 else end
  }

  /** What the matcher finds is in the language. */
  lemma MatchLengthSound(p: Pattern, s: string)
    requires MatchLength(p, s) > 0
    ensures Matches(p, s[..MatchLength(p, s)])
  {
    var a := LiteralLength(p, s);
    var b := if HasSeparator(p) then SeparatorsEnd(p, s, a) else a;
    var t := s[..MatchLength(p, s)];
    assert t[..a] == s[..a];
    assert MatchesAt(p, t, a, b);
  }

  lemma LiteralLengthComplete(p: Pattern, s: string, a: nat)
    requires a <= |s| && IsLiteral(p, s[..a])
    ensures LiteralLength(p, s) == a > 0
  {
    if p.HttpUrl? {
      assert s[..a] == "https://" ==> s[4] == 's';
    }
  }

  lemma DisjointClasses(p: Pattern, c: char)
    ensures !(IsSeparator(p, c) && IsBody(p, c))
  {
  }

  /** It finds the longest prefix in the language, and nothing only when there is none. */
  lemma MatchLengthComplete(p: Pattern, s: string, n: nat)
    requires n <= |s| && Matches(p, s[..n])
    ensures MatchLength(p, s) >= n > 0
  {
    var t := s[..n];
    var a: nat, b: nat :| MatchesAt(p, t, a, b);
    assert t[..a] == s[..a];
    LiteralLengthComplete(p, s, a);
    DisjointClasses(p, s[b]);
    assert IsBody(p, t[b]);
    assert forall i | a <= i < b :: IsSeparator(p, t[i]) && s[i] == t[i];
    var end := BodyEnd(p, s, b);
    assert forall i | b <= i < n :: IsBody(p, t[i]) && s[i] == t[i];
  }

  /** `Regex::replace_all`. */
  function ReplaceAll(p: Pattern, s: string): string
    decreases |s|
  {
    if s == "" then ""
    else if MatchLength(p, s) > 0 then Token(p) + ReplaceAll(p, s[MatchLength(p, s)..])
    else [s[0]] + ReplaceAll(p, s[1..])
  }

  function SanitizeForLog(input: string): string {
    var s := ReplaceAll(HttpUrl, input);
    var s := ReplaceAll(TelegramUrl, s);
    var s := ReplaceAll(Bearer, s);
    ReplaceAll(FileId, s)
  }

  // ----- no pass re-creates a match --------------------------------------------------------

  /** How much of `s` comes before the first match. */
  function Kept(p: Pattern, s: string): nat
    decreases |s|
  {
    if s == "" || MatchLength(p, s) > 0 then 0 else 1 + Kept(p, s[1..])
  }

  /** A rewritten string is the same up to the first match, where it goes on with a token. */
  lemma {:induction false} RewrittenPrefix(p: Pattern, s: string)
    ensures var m, out := Kept(p, s), ReplaceAll(p, s);
            && m <= |s| && m <= |out|
            && out[..m] == s[..m]
            && (m == |s| ==> |out| == |s|)
    decreases |s|
  {
    if s != "" && MatchLength(p, s) == 0 {
      RewrittenPrefix(p, s[1..]);
      var m, out := Kept(p, s[1..]), ReplaceAll(p, s[1..]);
      forall i | 0 <= i < m + 1
        ensures ([s[0]] + out)[i] == s[i]
      {
        if i > 0 {
          assert out[..m][i - 1] == s[1..][..m][i - 1];
        }
      }
    }
  }

  lemma TokenStart(p: Pattern, s: string)
    requires s != "" && MatchLength(p, s) > 0
    ensures ReplaceAll(p, s) != "" && ReplaceAll(p, s)[0] == '['
  {
    var token := Token(p);
    assert token[0] == '[';
  }

  lemma {:induction false} FirstMatch(p: Pattern, s: string)
    requires Kept(p, s) < |s|
    ensures var m, out := Kept(p, s), ReplaceAll(p, s);
            MatchLength(p, s[m..]) > 0 && m < |out| && out[m] == '['
    decreases |s|
  {
    if MatchLength(p, s) > 0 {
      assert s[0..] == s;
      TokenStart(p, s);
    } else {
      FirstMatch(p, s[1..]);
      var m := Kept(p, s[1..]);
      assert s[1..][m..] == s[m + 1..];
      assert ReplaceAll(p, s) == [s[0]] + ReplaceAll(p, s[1..]);
    }
  }

  /** A match does not start with whitespace. */
  lemma MatchStart(p: Pattern, s: string)
    requires MatchLength(p, s) > 0
    ensures s != "" && !IsSpace(s[0])
  {
    var a := LiteralLength(p, s);
    assert p.Bearer? ==> AsciiLower(s[..6][0]) == 'b';
    assert p.FileId? ==> AsciiLower(s[..7][0]) == 'f';
  }

  lemma NoBracketInLiteral(p: Pattern, s: string, i: nat)
    requires IsLiteral(p, s) && i < |s|
    ensures s[i] != '['
  {
    if p.Bearer? {
      assert AsciiLower(s[i]) == "bearer"[i];
    } else if p.FileId? {
      assert AsciiLower(s[i]) == "file_id"[i];
    }
  }

  /** If `out` agrees with `s` up to `m`, where `out` has a bracket and `s` no space, a match at the front of `out`
      tells of one at the front of `s`. */
  lemma MatchBeforeBracket(q: Pattern, s: string, out: string, m: nat, n: nat)
    requires m < |s| && m < |out| && out[..m] == s[..m] && out[m] == '[' && !IsSpace(s[m])
    requires n <= |out| && Matches(q, out[..n])
    ensures exists k :: 0 <= k <= |s| && Matches(q, s[..k])
  {
    var t := out[..n];
    var a: nat, b: nat :| MatchesAt(q, t, a, b);
    if n <= m {
      assert t == s[..n] by {
        assert t == out[..m][..n] && s[..n] == s[..m][..n];
      }
    } else {
      assert t[m] == '[';
      if m < a {
        NoBracketInLiteral(q, t[..a], m);
      }
      assert a <= m;
      assert b <= m;
      assert !HasSeparator(q);
      var k := if a < m then m else m + 1;
      var u := s[..k];
      assert u[..a] == t[..a] by {
        assert u[..a] == s[..m][..a] && t[..a] == out[..m][..a];
      }
      forall i | a <= i < k
        ensures IsBody(q, u[i])
      {
        if i < m {
          assert u[i] == s[..m][i] == out[..m][i] == t[i];
        }
      }
      assert MatchesAt(q, u, a, a);
    }
  }

  /** A rewrite creates no match at a position it keeps. */
  lemma KeptPositionStaysFree(p: Pattern, q: Pattern, s: string)
    requires MatchLength(p, s) == 0 && MatchLength(q, s) == 0
    ensures MatchLength(q, ReplaceAll(p, s)) == 0
  {
    var out := ReplaceAll(p, s);
    RewrittenPrefix(p, s);
    var m := Kept(p, s);
    if m == |s| {
      assert out == out[..m] && s == s[..m];
    } else if MatchLength(q, out) > 0 {
      FirstMatch(p, s);
      MatchLengthSound(q, out);
      MatchStart(p, s[m..]);
      MatchBeforeBracket(q, s, out, m, MatchLength(q, out));
      var k :| 0 <= k <= |s| && Matches(q, s[..k]);
      MatchLengthComplete(q, s, k);
    }
  }

  lemma LiteralStart(q: Pattern, s: string)
    requires LiteralLength(q, s) > 0
    ensures s != ""
    ensures match q
            case HttpUrl => s[0] == 'h'
            case TelegramUrl => s[0] == 't' && |s| > 1 && (s[1] == 'g' || s[1] == '.')
            case Bearer => AsciiLower(s[0]) == 'b'
            case FileId => AsciiLower(s[0]) == 'f'
  {
    if q.Bearer? {
      assert AsciiLower(s[..6][0]) == "bearer"[0];
    } else if q.FileId? {
      assert AsciiLower(s[..7][0]) == "file_id"[0];
    } else if q.TelegramUrl? {
      assert "tg://"[0] == 't' && "tg://"[1] == 'g' && "t.me/"[0] == 't' && "t.me/"[1] == '.';
    } else {
      assert "http://"[0] == 'h' && "https://"[0] == 'h';
    }
  }

  lemma TokenChars(p: Pattern, k: nat)
    requires k < |Token(p)|
    ensures var c := Token(p)[k];
            && c != 'h' && AsciiLower(c) != 'b'
            && (c == 't' ==> k + 1 < |Token(p)| && Token(p)[k + 1] == 'o')
            && (AsciiLower(c) == 'f' ==> p.FileId? && k == 1 && |Token(p)| == 9 && Token(p)[8] == ']')
  {
  }

  /** No pattern matches at a position inside a token, whatever follows it. */
  lemma TokensAreInert(p: Pattern, q: Pattern, rest: string, k: nat)
    requires k < |Token(p)|
    ensures MatchLength(q, Token(p)[k..] + rest) == 0
  {
    var token := Token(p);
    var s := token[k..] + rest;
    assert s[0] == token[k];
    TokenChars(p, k);
    if LiteralLength(q, s) > 0 {
      LiteralStart(q, s);
      assert k + 1 < |token| ==> s[1] == token[k + 1];
      assert q.FileId? && k == 1;
      assert s[7] == token[8];
    }
  }

  ghost predicate Unmatched(q: Pattern, s: string) {
    forall i | 0 <= i <= |s| :: MatchLength(q, s[i..]) == 0
  }

  lemma UnmatchedSuffix(q: Pattern, s: string, n: nat)
    requires Unmatched(q, s) && n <= |s|
    ensures Unmatched(q, s[n..])
  {
    forall i | 0 <= i <= |s[n..]|
      ensures MatchLength(q, s[n..][i..]) == 0
    {
      assert s[n..][i..] == s[n + i..];
    }
  }

  lemma UnmatchedConcat(q: Pattern, a: string, b: string)
    requires forall k | 0 <= k < |a| :: MatchLength(q, a[k..] + b) == 0
    requires Unmatched(q, b)
    ensures Unmatched(q, a + b)
  {
    forall i | 0 <= i <= |a + b|
      ensures MatchLength(q, (a + b)[i..]) == 0
    {
      if i < |a| {
        assert (a + b)[i..] == a[i..] + b;
      } else {
        assert (a + b)[i..] == b[i - |a|..];
      }
    }
  }

  lemma EmptyUnmatched(q: Pattern)
    ensures Unmatched(q, "")
  {
    assert forall i | 0 <= i <= |""| :: ""[i..] == "";
  }

  /** A pass removes its own matches, and keeps a string without matches of another pattern without them. */
  lemma {:induction false} PassStaysFree(p: Pattern, q: Pattern, s: string)
    requires q == p || Unmatched(q, s)
    ensures Unmatched(q, ReplaceAll(p, s))
    decreases |s|
  {
    if s == "" {
      EmptyUnmatched(q);
    } else if MatchLength(p, s) > 0 {
      var rest := s[MatchLength(p, s)..];
      if q != p {
        UnmatchedSuffix(q, s, MatchLength(p, s));
      }
      PassStaysFree(p, q, rest);
      forall k | 0 <= k < |Token(p)|
        ensures MatchLength(q, Token(p)[k..] + ReplaceAll(p, rest)) == 0
      {
        TokensAreInert(p, q, ReplaceAll(p, rest), k);
      }
      UnmatchedConcat(q, Token(p), ReplaceAll(p, rest));
    } else {
      if q != p {
        UnmatchedSuffix(q, s, 1);
        assert s[0..] == s;
      }
      PassStaysFree(p, q, s[1..]);
      KeptPositionStaysFree(p, q, s);
      assert [s[0]][0..] == [s[0]];
      UnmatchedConcat(q, [s[0]], ReplaceAll(p, s[1..]));
    }
  }

  lemma UnmatchedIsFree(q: Pattern, s: string)
    ensures Unmatched(q, s) <==> Free(q, s)
  {
    if Unmatched(q, s) {
      forall i, j | 0 <= i <= j <= |s|
        ensures !Matches(q, s[i..j])
      {
        assert s[i..][..j - i] == s[i..j];
        if Matches(q, s[i..j]) {
          MatchLengthComplete(q, s[i..], j - i);
        }
      }
    }
    if Free(q, s) {
      forall i | 0 <= i <= |s|
        ensures MatchLength(q, s[i..]) == 0
      {
        var n := MatchLength(q, s[i..]);
        assert s[i..][..n] == s[i..i + n];
        if n > 0 {
          MatchLengthSound(q, s[i..]);
        }
      }
    }
  }

  /** The redacted text contains nothing of any of the four kinds, whatever the input. */
  lemma RedactedIsFree(input: string, q: Pattern)
    ensures Free(q, SanitizeForLog(input))
  {
    var s1 := ReplaceAll(HttpUrl, input);
    var s2 := ReplaceAll(TelegramUrl, s1);
    var s3 := ReplaceAll(Bearer, s2);
    var s4 := ReplaceAll(FileId, s3);
    if q.HttpUrl? {
      PassStaysFree(HttpUrl, q, input);
    }
    if q.HttpUrl? || q.TelegramUrl? {
      PassStaysFree(TelegramUrl, q, s1);
    }
    if !q.FileId? {
      PassStaysFree(Bearer, q, s2);
    }
    PassStaysFree(FileId, q, s3);
    UnmatchedIsFree(q, s4);
  }

  /** Text without matches is left alone. */
  lemma {:induction false} PassKeepsFree(p: Pattern, s: string)
    requires Unmatched(p, s)
    ensures ReplaceAll(p, s) == s
    decreases |s|
  {
    if s != "" {
      assert s[0..] == s;
      UnmatchedSuffix(p, s, 1);
      PassKeepsFree(p, s[1..]);
    }
  }

  /** Text is left alone exactly when it contains none of the four kinds; in particular, redacting
      twice is redacting once. */
  lemma RedactionIsStable(input: string)
    ensures SanitizeForLog(input) == input <==> forall q :: Free(q, input)
    ensures SanitizeForLog(SanitizeForLog(input)) == SanitizeForLog(input)
  {
    forall q
      ensures Free(q, SanitizeForLog(input))
    {
      RedactedIsFree(input, q);
    }
    if forall q :: Free(q, input) {
      FreeIsKept(input);
    }
    FreeIsKept(SanitizeForLog(input));
  }

  lemma FreeIsKept(s: string)
    requires forall q :: Free(q, s)
    ensures SanitizeForLog(s) == s
  {
    forall q
      ensures Unmatched(q, s)
    {
      UnmatchedIsFree(q, s);
    }
    PassKeepsFree(HttpUrl, s);
    PassKeepsFree(TelegramUrl, s);
    PassKeepsFree(Bearer, s);
    PassKeepsFree(FileId, s);
  }

  // ----- what a text with matches turns into ------------------------------------------------

  /** A character that is kept, or a match. */
  datatype Piece = Char(c: char) | Match(text: string)

  ghost predicate NoMatchAtFront(p: Pattern, s: string) {
    forall n | 0 <= n <= |s| :: !Matches(p, s[..n])
  }

  ghost predicate LongestAtFront(p: Pattern, s: string, text: string) {
    text <= s && Matches(p, text) && forall n | |text| < n <= |s| :: !Matches(p, s[..n])
  }

  /** `pieces` cuts `s` as a global search does, from left to right and each match as long as possible: no match starts
      at a character that is kept. */
  ghost predicate Cuts(p: Pattern, s: string, pieces: seq<Piece>)
    decreases |pieces|
  {
    if pieces == [] then s == ""
    else
      match pieces[0]
      case Char(c) => s != "" && s[0] == c && NoMatchAtFront(p, s) && Cuts(p, s[1..], pieces[1..])
      case Match(text) => LongestAtFront(p, s, text) && Cuts(p, s[|text|..], pieces[1..])
  }

  /** The pieces with every match replaced. */
  function Filled(pieces: seq<Piece>, token: string): string {
    if pieces == [] then ""
    else (if pieces[0].Char? then [pieces[0].c] else token) + Filled(pieces[1..], token)
  }

  ghost predicate Rewrites(p: Pattern, token: string, s: string, out: string) {
    exists pieces :: Cuts(p, s, pieces) && out == Filled(pieces, token)
  }

  /** What the four expressions, their replacements and their order make of a text. */
  ghost predicate Redacts(input: string, out: string) {
    exists s1, s2, s3 ::
      && Rewrites(HttpUrl, "[url]", input, s1)
      && Rewrites(TelegramUrl, "[url]", s1, s2)
      && Rewrites(Bearer, "[token]", s2, s3)
      && Rewrites(FileId, "[file_id]", s3, out)
  }

  lemma NoMatchLength(p: Pattern, s: string)
    ensures NoMatchAtFront(p, s) <==> MatchLength(p, s) == 0
  {
    if MatchLength(p, s) > 0 {
      MatchLengthSound(p, s);
    }
    if n :| 0 <= n <= |s| && Matches(p, s[..n]) {
      MatchLengthComplete(p, s, n);
    }
  }

  lemma LongestMatchLength(p: Pattern, s: string, text: string)
    ensures LongestAtFront(p, s, text) <==> MatchLength(p, s) > 0 && text == s[..MatchLength(p, s)]
  {
    var n := MatchLength(p, s);
    if n > 0 {
      MatchLengthSound(p, s);
    }
    forall m | n < m <= |s|
      ensures !Matches(p, s[..m])
    {
      if Matches(p, s[..m]) {
        MatchLengthComplete(p, s, m);
      }
    }
    if LongestAtFront(p, s, text) {
      assert text == s[..|text|];
      MatchLengthComplete(p, s, |text|);
    }
  }

  /** How a text is cut. */
  function Pieces(p: Pattern, s: string): seq<Piece>
    decreases |s|
  {
    if s == "" then []
    else if MatchLength(p, s) > 0 then [Match(s[..MatchLength(p, s)])] + Pieces(p, s[MatchLength(p, s)..])
    else [Char(s[0])] + Pieces(p, s[1..])
  }

  lemma {:induction false} PiecesCut(p: Pattern, s: string)
    ensures Cuts(p, s, Pieces(p, s)) && ReplaceAll(p, s) == Filled(Pieces(p, s), Token(p))
    decreases |s|
  {
    if s != "" {
      var n := MatchLength(p, s);
      var pieces := Pieces(p, s);
      if n > 0 {
        LongestMatchLength(p, s, s[..n]);
        PiecesCut(p, s[n..]);
        assert pieces[1..] == Pieces(p, s[n..]);
      } else {
        NoMatchLength(p, s);
        PiecesCut(p, s[1..]);
        assert pieces[1..] == Pieces(p, s[1..]);
      }
    }
  }

  lemma CharThenPieces(p: Pattern, s: string, pieces: seq<Piece>)
    requires s != "" && pieces != [] && pieces[0] == Char(s[0]) && pieces[1..] == Pieces(p, s[1..])
    requires NoMatchAtFront(p, s)
    ensures pieces == Pieces(p, s)
  {
    NoMatchLength(p, s);
    assert pieces == [pieces[0]] + pieces[1..];
  }

  lemma MatchThenPieces(p: Pattern, s: string, pieces: seq<Piece>, text: string)
    requires pieces != [] && pieces[0] == Match(text) && LongestAtFront(p, s, text)
    requires |text| <= |s| && pieces[1..] == Pieces(p, s[|text|..])
    ensures pieces == Pieces(p, s)
  {
    LongestMatchLength(p, s, text);
    assert pieces == [pieces[0]] + pieces[1..];
  }

  /** There is only one way to cut a text. */
  lemma {:induction false} CutsAreUnique(p: Pattern, s: string, pieces: seq<Piece>)
    requires Cuts(p, s, pieces)
    ensures pieces == Pieces(p, s)
    decreases |pieces|
  {
    if pieces != [] {
      match pieces[0]
      case Char(c) =>
        CutsAreUnique(p, s[1..], pieces[1..]);
        CharThenPieces(p, s, pieces);
      case Match(text) =>
        CutsAreUnique(p, s[|text|..], pieces[1..]);
        MatchThenPieces(p, s, pieces, text);
    }
  }

  /** A pass keeps every character outside the matches, in order, and puts the replacement in the place of each match.
      */
  lemma PassRewrites(p: Pattern, s: string, out: string)
    ensures Rewrites(p, Token(p), s, out) <==> out == ReplaceAll(p, s)
  {
    PiecesCut(p, s);
    if Rewrites(p, Token(p), s, out) {
      var pieces :| Cuts(p, s, pieces) && out == Filled(pieces, Token(p));
      CutsAreUnique(p, s, pieces);
    }
  }

  /** The redactor's output is exactly what the four rewrites, one after the other, make of the input. */
  lemma RedactionRewrites(input: string, out: string)
    ensures Redacts(input, out) <==> out == SanitizeForLog(input)
  {
    var t1 := ReplaceAll(HttpUrl, input);
    var t2 := ReplaceAll(TelegramUrl, t1);
    var t3 := ReplaceAll(Bearer, t2);
    PassRewrites(HttpUrl, input, t1);
    PassRewrites(TelegramUrl, t1, t2);
    PassRewrites(Bearer, t2, t3);
    PassRewrites(FileId, t3, out);
    if Redacts(input, out) {
      var s1, s2, s3 :|
        && Rewrites(HttpUrl, "[url]", input, s1)
        && Rewrites(TelegramUrl, "[url]", s1, s2)
        && Rewrites(Bearer, "[token]", s2, s3)
        && Rewrites(FileId, "[file_id]", s3, out);
      PassRewrites(HttpUrl, input, s1);
      PassRewrites(TelegramUrl, s1, s2);
      PassRewrites(Bearer, s2, s3);
    }
  }
}
