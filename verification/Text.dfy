/** The parts of Rust's string library the repository uses. A string is a sequence of Unicode scalar values. */
module Text {
  import opened Common

  /** `char::is_whitespace`, which is also the regex class `\s`: the Unicode property White_Space. */
  predicate IsSpace(c: char) {
    || '\U{0009}' <= c <= '\U{000D}'
    || c == ' '
    || c == '\U{0085}'
    || c == '\U{00A0}'
    || c == '\U{1680}'
    || '\U{2000}' <= c <= '\U{200A}'
    || c == '\U{2028}'
    || c == '\U{2029}'
    || c == '\U{202F}'
    || c == '\U{205F}'
    || c == '\U{3000}'
  }

  function TrimStart(s: string): string {
    if s != "" && IsSpace(s[0]) then TrimStart(s[1..]) else s
  }

  function TrimEnd(s: string): string {
    if s != "" && IsSpace(Last(s)) then TrimEnd(Front(s)) else s
  }

  function Trim(s: string): string {
    TrimEnd(TrimStart(s))
  }

  function TrimQuotesStart(s: string): string {
    if s != "" && s[0] == '"' then TrimQuotesStart(s[1..]) else s
  }

  function TrimQuotesEnd(s: string): string {
    if s != "" && Last(s) == '"' then TrimQuotesEnd(Front(s)) else s
  }

  /** `trim_matches('"')`. */
  function TrimQuotes(s: string): string {
    TrimQuotesEnd(TrimQuotesStart(s))
  }

  /** No whitespace at either end. */
  predicate Trimmed(s: string) {
    s != "" ==> !IsSpace(s[0]) && !IsSpace(Last(s))
  }

  lemma TrimOfTrimmed(s: string)
    requires Trimmed(s)
    ensures Trim(s) == s
  {
  }

  /** `strip_prefix`. */
  function StripPrefix(s: string, prefix: string): Option<string> {
    if prefix <= s then Some(s[|prefix|..]) else None
  }

  /** The first position at which `sep` occurs in `s` at or after `from`, or `|s|`. */
  function Find(s: string, sep: string, from: nat): (i: nat)
    requires from <= |s|
    ensures from <= i <= |s|
    ensures i < |s| ==> sep <= s[i..]
    ensures forall j | from <= j < i :: !(sep <= s[j..])
    decreases |s| - from
  {
    if from == |s| then from
    else if sep <= s[from..] then from
    else Find(s, sep, from + 1)
  }

  /** `split_once`. */
  function SplitOnce(s: string, sep: string): Option<(string, string)>
    requires sep != ""
  {
    var i := Find(s, sep, 0);
    if i < |s| then Some((s[..i], s[i + |sep|..])) else None
  }

  /** `split` at a character. */
  function Split(s: string, c: char): (parts: seq<string>)
    ensures parts != []
    decreases |s|
  {
    var i := Find(s, [c], 0);
    if i < |s| then [s[..i]] + Split(s[i + 1..], c) else [s]
  }

  lemma FindAt(s: string, sep: string, i: nat)
    requires sep != "" && i < |s| && sep <= s[i..]
    requires forall j | 0 <= j < i :: !(sep <= s[j..])
    ensures Find(s, sep, 0) == i
  {
  }

  /** A separator that first occurs right after `a`. */
  lemma SplitOnceAt(a: string, sep: string, b: string)
    requires sep != ""
    requires forall j | 0 <= j < |a| :: !(sep <= (a + sep + b)[j..])
    ensures SplitOnce(a + sep + b, sep) == Some((a, b))
  {
    var s := a + sep + b;
    assert s[|a|..] == sep + b;
    FindAt(s, sep, |a|);
    assert s[..|a|] == a && s[|a| + |sep|..] == b;
  }

  lemma SplitOnceFresh(a: string, sep: string, b: string)
    requires sep != "" && sep[0] !in a
    ensures SplitOnce(a + sep + b, sep) == Some((a, b))
  {
    forall j | 0 <= j < |a|
      ensures !(sep <= (a + sep + b)[j..])
    {
      assert (a + sep + b)[j..][0] == a[j];
    }
    SplitOnceAt(a, sep, b);
  }

  lemma StripPrefixOf(prefix: string, rest: string)
    ensures StripPrefix(prefix + rest, prefix) == Some(rest)
  {
  }

  lemma TrimAfterSpace(s: string)
    requires s != "" && Trimmed(s)
    ensures Trim([' '] + s) == s
  {
    assert ([' '] + s)[1..] == s;
    TrimOfTrimmed(s);
  }

  predicate AllSpace(s: string) {
    forall i | 0 <= i < |s| :: IsSpace(s[i])
  }

  predicate AllQuotes(s: string) {
    forall i | 0 <= i < |s| :: s[i] == '"'
  }

  lemma {:induction false} TrimStartRemoves(s: string) returns (before: string)
    ensures s == before + TrimStart(s) && AllSpace(before)
    ensures TrimStart(s) != "" ==> !IsSpace(TrimStart(s)[0])
    decreases |s|
  {
    before := "";
    if s != "" && IsSpace(s[0]) {
      var rest := TrimStartRemoves(s[1..]);
      before := [s[0]] + rest;
      assert s == [s[0]] + s[1..];
    }
  }

  lemma {:induction false} TrimEndRemoves(s: string) returns (after: string)
    ensures s == TrimEnd(s) + after && AllSpace(after)
    ensures TrimEnd(s) != "" ==> !IsSpace(Last(TrimEnd(s))) && TrimEnd(s)[0] == s[0]
    decreases |s|
  {
    after := "";
    if s != "" && IsSpace(Last(s)) {
      var rest := TrimEndRemoves(Front(s));
      after := rest + [Last(s)];
      assert s == Front(s) + [Last(s)];
    }
  }

  /** Trimming removes whitespace at both ends, all of it and nothing else. */
  lemma TrimRemoves(s: string) returns (before: string, after: string)
    ensures s == before + Trim(s) + after && AllSpace(before) && AllSpace(after) && Trimmed(Trim(s))
  {
    before := TrimStartRemoves(s);
    after := TrimEndRemoves(TrimStart(s));
  }

  lemma {:induction false} TrimQuotesStartRemoves(s: string) returns (before: string)
    ensures s == before + TrimQuotesStart(s) && AllQuotes(before)
    ensures TrimQuotesStart(s) != "" ==> TrimQuotesStart(s)[0] != '"'
    decreases |s|
  {
    before := "";
    if s != "" && s[0] == '"' {
      var rest := TrimQuotesStartRemoves(s[1..]);
      before := [s[0]] + rest;
      assert s == [s[0]] + s[1..];
    }
  }

  lemma {:induction false} TrimQuotesEndRemoves(s: string) returns (after: string)
    ensures s == TrimQuotesEnd(s) + after && AllQuotes(after)
    ensures TrimQuotesEnd(s) != "" ==> Last(TrimQuotesEnd(s)) != '"' && TrimQuotesEnd(s)[0] == s[0]
    decreases |s|
  {
    after := "";
    if s != "" && Last(s) == '"' {
      var rest := TrimQuotesEndRemoves(Front(s));
      after := rest + [Last(s)];
      assert s == Front(s) + [Last(s)];
    }
  }

  /** ... and so with quotes. */
  lemma TrimQuotesRemoves(s: string) returns (before: string, after: string)
    ensures s == before + TrimQuotes(s) + after && AllQuotes(before) && AllQuotes(after)
    ensures TrimQuotes(s) != "" ==> TrimQuotes(s)[0] != '"' && Last(TrimQuotes(s)) != '"'
  {
    before := TrimQuotesStartRemoves(s);
    after := TrimQuotesEndRemoves(TrimQuotesStart(s));
  }

  lemma TrimQuotesAround(s: string)
    requires s != "" && s[0] != '"' && Last(s) != '"'
    ensures TrimQuotes(['"'] + s + ['"']) == s
  {
    var quoted := ['"'] + s + ['"'];
    var rest := s + ['"'];
    assert quoted[0] == '"' && quoted[1..] == rest && rest[0] == s[0];
    assert TrimQuotesStart(rest) == rest;
    FrontLast(s, '"');
    assert TrimQuotesEnd(rest) == TrimQuotesEnd(s);
  }

  lemma SplitOnceNone(s: string, sep: string)
    requires sep != "" && sep[0] !in s
    ensures SplitOnce(s, sep) == None
  {
    assert forall i | 0 <= i < |s| :: s[i..][0] == s[i];
  }

  /** The parts with separators between them. */
  function Join(parts: seq<string>, c: char): string
    requires parts != []
  {
    if |parts| == 1 then parts[0] else parts[0] + [c] + Join(parts[1..], c)
  }

  /** Splitting undoes joining ... */
  lemma {:induction false} SplitJoin(parts: seq<string>, c: char)
    requires parts != [] && forall i | 0 <= i < |parts| :: c !in parts[i]
    ensures Split(Join(parts, c), c) == parts
    decreases |parts|
  {
    if |parts| == 1 {
      NotIn(parts[0], c);
    } else {
      SplitJoin(parts[1..], c);
      SplitAt(parts[0], c, Join(parts[1..], c));
      assert parts == [parts[0]] + parts[1..];
    }
  }

  /** ... and joining undoes splitting, into parts without separators. */
  lemma {:induction false} JoinSplit(s: string, c: char)
    ensures Join(Split(s, c), c) == s
    ensures forall i | 0 <= i < |Split(s, c)| :: c !in Split(s, c)[i]
    decreases |s|
  {
    var i := Find(s, [c], 0);
    forall j | 0 <= j < i
      ensures s[j] != c
    {
      assert !([c] <= s[j..]) && s[j..][0] == s[j];
    }
    if i < |s| {
      JoinSplit(s[i + 1..], c);
      assert s[i..][0] == c;
      assert s == s[..i] + [c] + s[i + 1..];
      assert Split(s, c)[1..] == Split(s[i + 1..], c);
    }
  }

  lemma TrimQuotesNone(s: string)
    requires s != "" ==> s[0] != '"' && Last(s) != '"'
    ensures TrimQuotes(s) == s
  {
  }

  lemma NotIn(s: string, c: char)
    requires c !in s
    ensures Split(s, c) == [s]
  {
    forall i | 0 <= i < |s|
      ensures !([c] <= s[i..])
    {
      assert s[i..][0] == s[i];
    }
  }

  lemma SplitAt(a: string, c: char, b: string)
    requires c !in a
    ensures Split(a + [c] + b, c) == [a] + Split(b, c)
  {
    var s := a + [c] + b;
    forall j | 0 <= j < |a|
      ensures !([c] <= s[j..])
    {
      assert s[j..][0] == a[j];
    }
    assert s[|a|..] == [c] + b;
    FindAt(s, [c], |a|);
    assert s[..|a|] == a && s[|a| + 1..] == b;
  }
}
