/** The stat summary shown on a card: a header line followed by one
    "name: value" line per base stat, in the order the detail record lists
    them. A parser for that text is given too, as the builder's inverse for stat
    names without a line break. */
module StatText {
  import opened Optional

  /** One entry of a detail record's stat list: the stat's name and its base
      value. */
  datatype Stat = Stat(name: string, baseStat: int)

  const Header: string := "Stats:\n"

  predicate IsDigit(c: char)
  {
    '0' <= c <= '9'
  }

  predicate AllDigits(s: string)
  {
    forall i :: 0 <= i < |s| ==> IsDigit(s[i])
  }

  function DigitChar(d: nat): (c: char)
    requires d < 10
    ensures IsDigit(c)
  {
    ('0' as int + d) as char
  }

  function DigitValue(c: char): (d: nat)
    requires IsDigit(c)
    ensures d < 10 && DigitChar(d) == c
  {
    c as int - '0' as int
  }

  /** The decimal digits of a natural number, without leading zeros. */
  function NatToString(n: nat): (s: string)
    ensures |s| > 0 && AllDigits(s)
    ensures |s| > 1 ==> s[0] != '0'
    decreases n
  {
    if n < 10 then [DigitChar(n)] else NatToString(n / 10) + [DigitChar(n % 10)]
  }

  /** How an integer JSON value is rendered as text: its decimal digits,
      preceded by '-' when it is negative. */
  function IntToString(n: int): (s: string)
    ensures |s| > 0
    ensures s[0] == '-' <==> n < 0
    ensures forall i :: 0 <= i < |s| ==> IsDigit(s[i]) || (i == 0 && s[i] == '-')
  {
    if n < 0 then "-" + NatToString(-n) else NatToString(n)
  }

  /** The value of a non-empty string of decimal digits. */
  function ParseDigits(s: string): nat
    requires |s| > 0 && AllDigits(s)
    decreases |s|
  {
    if |s| == 1 then DigitValue(s[0])
    else ParseDigits(s[..|s| - 1]) * 10 + DigitValue(s[|s| - 1])
  }

  /** Reads an optionally negative decimal integer; None for anything else. */
  function ParseInt(s: string): Option<int>
  {
    if |s| > 1 && s[0] == '-' && AllDigits(s[1..]) then
      var magnitude: int := ParseDigits(s[1..]);
      Some(-magnitude)
    else if |s| > 0 && AllDigits(s) then Some(ParseDigits(s))
    else None
  }

  lemma {:induction false} ParseDigitsOfNatToString(n: nat)
    ensures ParseDigits(NatToString(n)) == n
    decreases n
  {
    if n >= 10 {
      var s := NatToString(n);
      assert s[..|s| - 1] == NatToString(n / 10);
      ParseDigitsOfNatToString(n / 10);
    }
  }

  /** The rendering of a stat value can be read back as that value. */
  lemma ParseIntOfIntToString(n: int)
    ensures ParseInt(IntToString(n)) == Some(n)
  {
    var s := IntToString(n);
    if n < 0 {
      assert s[1..] == NatToString(-n);
      ParseDigitsOfNatToString(-n);
    } else {
      ParseDigitsOfNatToString(n);
    }
  }

  /** One line of the summary. */
  function StatLine(st: Stat): string
  {
    st.name + ": " + IntToString(st.baseStat) + "\n"
  }

  /** The lines of the summary, one per stat, in list order. */
  function StatLines(stats: seq<Stat>): string
  {
    if stats == [] then "" else StatLine(stats[0]) + StatLines(stats[1..])
  }

  /** The complete stat summary of a detail record. */
  function StatsText(stats: seq<Stat>): string
  {
    Header + StatLines(stats)
  }

  /** The lines of a concatenated stat list are the lines of each part. */
  lemma {:induction false} StatLinesAppend(a: seq<Stat>, b: seq<Stat>)
    ensures StatLines(a + b) == StatLines(a) + StatLines(b)
  {
    if a == [] {
      assert a + b == b;
    } else {
      assert (a + b)[0] == a[0];
      assert (a + b)[1..] == a[1..] + b;
      StatLinesAppend(a[1..], b);
    }
  }

  /** Appending one stat appends its line to the summary. */
  lemma StatsTextSnoc(a: seq<Stat>, st: Stat)
    ensures StatsText(a + [st]) == StatsText(a) + StatLine(st)
  {
    StatLinesAppend(a, [st]);
    assert StatLines([st]) == StatLine(st) + StatLines([]);
  }

  /** Builds the summary the way the detail handler does: start from the
      header and append one line per stat. */
  method BuildStatsText(stats: seq<Stat>) returns (text: string)
    ensures text == StatsText(stats)
  {
    text := Header;
    for i := 0 to |stats|
      invariant text == StatsText(stats[..i])
    {
      var line := stats[i].name + ": " + IntToString(stats[i].baseStat) + "\n";
      StatsTextSnoc(stats[..i], stats[i]);
      assert stats[..i + 1] == stats[..i] + [stats[i]];
      text := text + line;
    }
    assert stats[..|stats|] == stats;
  }

  /** The first position of `c` in `s`, or |s| when there is none. */
  function IndexOf(s: string, c: char): (r: nat)
    ensures r <= |s|
    ensures r < |s| ==> s[r] == c
    ensures forall k :: 0 <= k < r ==> s[k] != c
  {
    if s == [] then 0 else if s[0] == c then 0 else 1 + IndexOf(s[1..], c)
  }

  /** The last position of `c` in `s`, or -1 when there is none. */
  function LastIndexOf(s: string, c: char): (r: int)
    ensures -1 <= r < |s|
    ensures r >= 0 ==> s[r] == c
    ensures forall k :: r < k < |s| ==> s[k] != c
  {
    if s == [] then -1
    else if s[|s| - 1] == c then |s| - 1
    else LastIndexOf(s[..|s| - 1], c)
  }

  /** Reads one summary line, without its line break, back into a stat. The
      name is everything before the last ':'. */
  function ParseLine(line: string): Option<Stat>
  {
    var k := LastIndexOf(line, ':');
    if k < 0 || k + 1 >= |line| || line[k + 1] != ' ' then None
    else match ParseInt(line[k + 2..])
      case None => None
      case Some(v) => Some(Stat(line[..k], v))
  }

  /** Reads a sequence of summary lines back into the stats they show. */
  function ParseLines(text: string): Option<seq<Stat>>
    decreases |text|
  {
    if text == [] then Some([])
    else
      var k := IndexOf(text, '\n');
      if k == |text| then None
      else match ParseLine(text[..k])
        case None => None
        case Some(st) =>
          match ParseLines(text[k + 1..])
          case None => None
          case Some(rest) => Some([st] + rest)
  }

  /** Reads a whole stat summary back into the stats it shows. */
  function ParseStatsText(text: string): Option<seq<Stat>>
  {
    if |text| >= |Header| && text[..|Header|] == Header then ParseLines(text[|Header|..])
    else None
  }

  /** Stat names that keep the summary one line per stat. */
  predicate LineSafe(stats: seq<Stat>)
  {
    forall i :: 0 <= i < |stats| ==> '\n' !in stats[i].name
  }

  lemma ParseLineOfStatLine(st: Stat)
    ensures ParseLine(st.name + ": " + IntToString(st.baseStat)) == Some(st)
  {
    var v := IntToString(st.baseStat);
    var line := st.name + ": " + v;
    var n := |st.name|;
    assert line[n] == ':';
    forall k | n < k < |line| ensures line[k] != ':' {
      if k > n + 1 { assert line[k] == v[k - n - 2]; }
    }
    assert LastIndexOf(line, ':') == n;
    assert line[..n] == st.name;
    assert line[n + 2..] == v;
    ParseIntOfIntToString(st.baseStat);
  }

  /** The first occurrence of `c` in a + [c] + b is right after a, when a
      does not contain it. */
  lemma IndexOfFirst(a: string, c: char, b: string)
    requires c !in a
    ensures IndexOf(a + [c] + b, c) == |a|
    ensures (a + [c] + b)[..|a|] == a && (a + [c] + b)[|a| + 1..] == b
  {
    var t := a + [c] + b;
    assert t[|a|] == c;
    forall k | 0 <= k < |a| ensures t[k] != c {
      assert t[k] == a[k];
    }
  }

  /** A stat line without its line break contains no line break when the
      stat's name has none. */
  lemma LineBodyHasNoBreak(st: Stat)
    requires '\n' !in st.name
    ensures '\n' !in st.name + ": " + IntToString(st.baseStat)
  {
    var v := IntToString(st.baseStat);
    var body := st.name + ": " + v;
    forall k | 0 <= k < |body| ensures body[k] != '\n' {
      if k >= |st.name| + 2 { assert body[k] == v[k - |st.name| - 2]; }
      else if k < |st.name| { assert body[k] == st.name[k]; }
    }
  }

  /** The first line of a non-empty summary body is the first stat's line. */
  lemma FirstStatLine(stats: seq<Stat>)
    requires stats != [] && '\n' !in stats[0].name
    ensures var body := stats[0].name + ": " + IntToString(stats[0].baseStat);
      var text := StatLines(stats);
      IndexOf(text, '\n') == |body| && text[..|body|] == body &&
      text[|body| + 1..] == StatLines(stats[1..])
  {
    var body := stats[0].name + ": " + IntToString(stats[0].baseStat);
    assert StatLines(stats) == body + ['\n'] + StatLines(stats[1..]);
    LineBodyHasNoBreak(stats[0]);
    IndexOfFirst(body, '\n', StatLines(stats[1..]));
  }

  lemma {:induction false} ParseLinesOfStatLines(stats: seq<Stat>)
    requires LineSafe(stats)
    ensures ParseLines(StatLines(stats)) == Some(stats)
  {
    if stats != [] {
      var body := stats[0].name + ": " + IntToString(stats[0].baseStat);
      var text := StatLines(stats);
      FirstStatLine(stats);
      ParseLineOfStatLine(stats[0]);
      ParseLinesOfStatLines(stats[1..]);
      assert text != [];
      assert ParseLine(text[..|body|]) == Some(stats[0]);
      assert ParseLines(text[|body| + 1..]) == Some(stats[1..]);
      assert [stats[0]] + stats[1..] == stats;
    }
  }

  /** The summary determines the stats it was built from: reading it back
      gives exactly the stat list, one stat per line and in order. */
  lemma StatsTextRoundTrip(stats: seq<Stat>)
    requires LineSafe(stats)
    ensures ParseStatsText(StatsText(stats)) == Some(stats)
  {
    var text := StatsText(stats);
    assert text[..|Header|] == Header;
    assert text[|Header|..] == StatLines(stats);
    ParseLinesOfStatLines(stats);
  }
}
