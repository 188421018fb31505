/** The size limit as yt-dlp reads it (crates/downloader/src/ytdlp.rs). */
module YtDlpSize {
  import opened Common
  import opened Decimal

  /** The limit as the argument of `--max-filesize`. */
  function BytesToMaxFilesize(bytes: nat): string {
    if bytes >= GIB && bytes % GIB == 0 then Print(bytes / GIB) + "G"
    else if bytes >= MIB && bytes % MIB == 0 then Print(bytes / MIB) + "M"
    else Print(bytes)
  }

  /** A size with a binary suffix, as yt-dlp takes it. */
  function ReadSize(s: string): Option<nat> {
    if s == "" then None
    else if Last(s) == 'G' then Scale(ParseU64(Front(s)), GIB)
    else if Last(s) == 'M' then Scale(ParseU64(Front(s)), MIB)
    else ParseU64(s)
  }

  function Scale(n: Option<nat>, unit: nat): Option<nat> {
    if n.None? then None else Some(n.value * unit)
  }

  lemma ExactGib(n: nat)
    requires n % GIB == 0
    ensures n / GIB * GIB == n && n / GIB <= n
  {
  }

  lemma ExactMib(n: nat)
    requires n % MIB == 0
    ensures n / MIB * MIB == n && n / MIB <= n
  {
  }

  lemma SuffixRoundTrip(n: nat, suffix: char)
    requires n < TWO_64
    ensures Last(Print(n) + [suffix]) == suffix && ParseU64(Front(Print(n) + [suffix])) == Some(n)
  {
    ParsePrint(n);
    FrontLast(Print(n), suffix);
  }

  lemma PlainRoundTrip(n: nat)
    requires n < TWO_64
    ensures ReadSize(Print(n)) == Some(n)
  {
    ParsePrint(n);
    ValuePrint(n);
    assert IsDigit(Print(n)[|Print(n)| - 1]);
  }

  /** Every limit reads back as exactly the same number of bytes. */
  lemma SizeRoundTrip(bytes: nat)
    requires bytes < TWO_64
    ensures ReadSize(BytesToMaxFilesize(bytes)) == Some(bytes)
  {
    if bytes >= GIB && bytes % GIB == 0 {
      ExactGib(bytes);
      SuffixRoundTrip(bytes / GIB, 'G');
    } else if bytes >= MIB && bytes % MIB == 0 {
      ExactMib(bytes);
      SuffixRoundTrip(bytes / MIB, 'M');
    } else {
      PlainRoundTrip(bytes);
    }
  }

  datatype Unit = Bytes | Mebibytes | Gibibytes

  /** The unit a size is written in. */
  function UnitOf(s: string): Unit {
    if s != "" && Last(s) == 'G' then Gibibytes else if s != "" && Last(s) == 'M' then Mebibytes else Bytes
  }

  lemma UnitOfSuffix(digits: string, suffix: string)
    requires suffix == "G" || suffix == "M"
    ensures UnitOf(digits + suffix) == if suffix == "G" then Gibibytes else Mebibytes
  {
    assert Last(digits + suffix) == suffix[0];
  }

  lemma UnitOfPrinted(n: nat)
    ensures UnitOf(Print(n)) == Bytes
  {
    ValuePrint(n);
    assert IsDigit(Print(n)[|Print(n)| - 1]);
  }

  lemma SmallRemainders(n: nat)
    ensures 0 < n < MIB ==> n % MIB != 0
    ensures 0 < n < GIB ==> n % GIB != 0
  {
  }

  function LargestUnit(n: nat): Unit {
    if n == 0 then Bytes else if n % GIB == 0 then Gibibytes else if n % MIB == 0 then Mebibytes else Bytes
  }

  /** The unit that is chosen. */
  lemma LargestUnitByCases(n: nat)
    ensures LargestUnit(n) == if n >= GIB && n % GIB == 0 then Gibibytes
                              else if n >= MIB && n % MIB == 0 then Mebibytes else Bytes
  {
    SmallRemainders(n);
  }

  /** The printed limit uses the largest unit that divides it: whole gibibytes end in G, other whole mebibytes in M, and
      everything else, zero included, in a digit. */
  lemma UnitIsLargest(bytes: nat)
    ensures UnitOf(BytesToMaxFilesize(bytes)) == LargestUnit(bytes)
  {
    LargestUnitByCases(bytes);
    if bytes >= GIB && bytes % GIB == 0 {
      UnitOfSuffix(Print(bytes / GIB), "G");
    } else if bytes >= MIB && bytes % MIB == 0 {
      UnitOfSuffix(Print(bytes / MIB), "M");
    } else {
      UnitOfPrinted(bytes);
    }
  }
}
