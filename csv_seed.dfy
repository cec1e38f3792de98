/** The catalog seed script's pure core: the line-by-line CSV field
    splitter, the mapping of a row's fields to a problem, the skipping of
    blank lines and the batches of 100 handed to the database. */
module CsvSeed {
  import opened Domain
  import opened Collections
  import opened Text

  const Quote: char := '"'
  const Comma: char := ','
  const BatchSize: nat := 100

  /** The splitter's state: the finished fields, the field being read and
      whether the scan is inside quotes. */
  datatype Scan = Scan(values: seq<string>, current: string, inQuotes: bool)

  /** One character of the scan: a quote flips the flag and is dropped; a
      comma outside quotes ends the (trimmed) field; anything else is kept. */
  function Step(st: Scan, c: char): Scan
  {
    if c == Quote then st.(inQuotes := !st.inQuotes)
    else if c == Comma && !st.inQuotes then Scan(st.values + [Trim(st.current)], "", st.inQuotes)
    else st.(current := st.current + [c])
  }

  /** The scan over a whole line, from the left. */
  function ScanLine(line: string): Scan
  {
    if line == [] then Scan([], "", false) else Step(ScanLine(line[..|line| - 1]), line[|line| - 1])
  }

  /** The fields of a line: the finished ones and the trimmed last one. */
  function SplitFields(line: string): (r: seq<string>)
    ensures |r| >= 1
  {
    var st := ScanLine(line);
    st.values + [Trim(st.current)]
  }

  /** The splitter as the script runs it, one character at a time. */
  method SplitCsvLine(line: string) returns (values: seq<string>)
    ensures values == SplitFields(line)
  {
    values := [];
    var current := "";
    var inQuotes := false;
    var i := 0;
    while i < |line|
      invariant 0 <= i <= |line|
      invariant ScanLine(line[..i]) == Scan(values, current, inQuotes)
    {
      var c := line[i];
      assert line[..i + 1][..i] == line[..i];
      if c == Quote {
        inQuotes := !inQuotes;
      } else if c == Comma && !inQuotes {
        values := values + [Trim(current)];
        current := "";
      } else {
        current := current + [c];
      }
      i := i + 1;
    }
    assert line[..i] == line;
    values := values + [Trim(current)];
  }

  /** Number of quote characters. */
  function Quotes(s: string): nat
  {
    if s == [] then 0 else Quotes(s[..|s| - 1]) + (if s[|s| - 1] == Quote then 1 else 0)
  }

  /** Number of commas preceded by an even number of quotes. */
  function UnquotedCommas(s: string): nat
  {
    if s == [] then 0
    else
      var init := s[..|s| - 1];
      UnquotedCommas(init) + (if s[|s| - 1] == Comma && Quotes(init) % 2 == 0 then 1 else 0)
  }

  /** A field as the splitter leaves it: no quote and no surrounding white
      space. */
  predicate CleanField(f: string)
  {
    Quote !in f && Trim(f) == f
  }

  /** Trimming keeps a character out that was out. */
  lemma TrimKeepsOut(s: string, c: char)
    requires c !in s
    ensures c !in Trim(s)
  {
    var r := Trim(s);
    TrimShape(s);
    var i :| TrimmedAt(s, r, i);
    forall k | 0 <= k < |r| ensures r[k] != c {
      assert r[k] == s[i + k];
    }
  }

  /** What one step does to the flag and to the number of finished
      fields. */
  lemma StepCounts(st: Scan, c: char)
    ensures Step(st, c).inQuotes == (if c == Quote then !st.inQuotes else st.inQuotes)
    ensures |Step(st, c).values| == |st.values| + (if c == Comma && !st.inQuotes then 1 else 0)
  {
  }

  /** The scan is inside quotes exactly after an odd number of quotes. */
  lemma {:induction false} ScanQuotes(line: string)
    ensures ScanLine(line).inQuotes <==> Quotes(line) % 2 == 1
  {
    if line != [] {
      var init := line[..|line| - 1];
      ScanQuotes(init);
      StepCounts(ScanLine(init), line[|line| - 1]);
    }
  }

  /** The scan finishes one field per comma outside quotes. */
  lemma {:induction false} ScanCount(line: string)
    ensures |ScanLine(line).values| == UnquotedCommas(line)
  {
    if line != [] {
      var init := line[..|line| - 1];
      ScanQuotes(init);
      ScanCount(init);
      StepCounts(ScanLine(init), line[|line| - 1]);
    }
  }

  /** Every finished field is clean. */
  ghost predicate AllClean(values: seq<string>)
  {
    forall i :: 0 <= i < |values| ==> CleanField(values[i])
  }

  lemma AllCleanSnoc(values: seq<string>, f: string)
    requires AllClean(values) && CleanField(f)
    ensures AllClean(values + [f])
  {
    var v := values + [f];
    forall i | 0 <= i < |v| ensures CleanField(v[i]) {
      if i < |values| {
        assert v[i] == values[i];
      }
    }
  }

  /** A step keeps quotes out of the current field and finishes only clean
      fields. */
  lemma StepClean(st: Scan, c: char)
    requires Quote !in st.current && AllClean(st.values)
    ensures Quote !in Step(st, c).current && AllClean(Step(st, c).values)
  {
    var f := Trim(st.current);
    if c == Quote {
      assert Step(st, c) == st.(inQuotes := !st.inQuotes);
    } else if c == Comma && !st.inQuotes {
      TrimKeepsOut(st.current, Quote);
      TrimIdempotent(st.current);
      AllCleanSnoc(st.values, f);
      assert Step(st, c) == Scan(st.values + [f], "", st.inQuotes);
    } else {
      assert Step(st, c) == st.(current := st.current + [c]);
    }
  }

  /** The scan never keeps a quote, and every finished field is clean. */
  lemma {:induction false} ScanClean(line: string)
    ensures Quote !in ScanLine(line).current
    ensures AllClean(ScanLine(line).values)
  {
    if line != [] {
      var init := line[..|line| - 1];
      ScanClean(init);
      StepClean(ScanLine(init), line[|line| - 1]);
    }
  }

  /** A line has one field more than it has commas outside quotes. */
  lemma FieldCount(line: string)
    ensures |SplitFields(line)| == UnquotedCommas(line) + 1
  {
    ScanCount(line);
  }

  /** Every field is free of quotes and trimmed. */
  lemma FieldsAreClean(line: string)
    ensures AllClean(SplitFields(line))
  {
    var st := ScanLine(line);
    ScanClean(line);
    TrimKeepsOut(st.current, Quote);
    TrimIdempotent(st.current);
    AllCleanSnoc(st.values, Trim(st.current));
  }

  /** Without quotes the splitter is `split(",")` with every piece trimmed. */
  lemma {:induction false} UnquotedLineIsSplit(line: string)
    requires Quote !in line
    ensures SplitFields(line) == TrimAll(Split(line, Comma))
  {
    SplitByScan(line);
    var st := ScanLine(line);
    var pieces := Split(line, Comma);
    var n := |pieces|;
    var front, last := pieces[..n - 1], pieces[n - 1];
    TrimAllSnoc(front, last);
    InitLast(pieces);
    assert SplitFields(line) == TrimAll(front) + [Trim(last)];
  }

  function TrimAll(pieces: seq<string>): (r: seq<string>)
    ensures |r| == |pieces|
    ensures forall i :: 0 <= i < |r| ==> r[i] == Trim(pieces[i])
  {
    seq(|pieces|, i requires 0 <= i < |pieces| => Trim(pieces[i]))
  }

  /** `Split` from the right: the last piece grows by a non-separator and
      a separator opens a new empty piece. */
  lemma {:induction false} SplitSnoc(s: string, c: char, sep: char)
    ensures c == sep ==> Split(s + [c], sep) == Split(s, sep) + [""]
    ensures c != sep ==> var r := Split(s, sep);
      Split(s + [c], sep) == r[..|r| - 1] + [r[|r| - 1] + [c]]
  {
    if c == sep {
      SplitSnocSep(s, sep);
    } else {
      SplitSnocOther(s, c, sep);
    }
  }

  /** A separator at the end opens a new empty piece. */
  lemma {:induction false} SplitSnocSep(s: string, sep: char)
    ensures Split(s + [sep], sep) == Split(s, sep) + [""]
  {
    if s == [] {
      assert [sep][1..] == [];
    } else {
      assert (s + [sep])[1..] == s[1..] + [sep];
      SplitSnocSep(s[1..], sep);
      var r1 := Split(s[1..], sep);
      var r2 := Split(s[1..] + [sep], sep);
      if s[0] == sep {
        SnocOpens([""], r1, r2);
      } else {
        SnocOpensFirst(s[0], r1, r2);
      }
    }
  }

  /** Any other character at the end grows the last piece. */
  lemma {:induction false} SplitSnocOther(s: string, c: char, sep: char)
    requires c != sep
    ensures var r := Split(s, sep); Split(s + [c], sep) == r[..|r| - 1] + [r[|r| - 1] + [c]]
  {
    if s == [] {
      assert [c][1..] == [];
      assert "" + [c] == [c] + "";
    } else {
      assert (s + [c])[1..] == s[1..] + [c];
      SplitSnocOther(s[1..], c, sep);
      var r1 := Split(s[1..], sep);
      var r2 := Split(s[1..] + [c], sep);
      if s[0] == sep {
        GrowLast([""], r1, r2, c);
      } else {
        GrowLastFirst(s[0], r1, r2, c);
      }
    }
  }

  lemma SnocOpens(h: seq<string>, r1: seq<string>, r2: seq<string>)
    requires r2 == r1 + [""]
    ensures h + r2 == (h + r1) + [""]
  {
  }

  lemma GrowLast(h: seq<string>, r1: seq<string>, r2: seq<string>, c: char)
    requires |r1| >= 1 && r2 == r1[..|r1| - 1] + [r1[|r1| - 1] + [c]]
    ensures var r := h + r1; h + r2 == r[..|r| - 1] + [r[|r| - 1] + [c]]
  {
    var r := h + r1;
    assert r[..|r| - 1] == h + r1[..|r1| - 1];
  }

  lemma SnocOpensFirst(x: char, r1: seq<string>, r2: seq<string>)
    requires |r1| >= 1 && r2 == r1 + [""]
    ensures [[x] + r2[0]] + r2[1..] == ([[x] + r1[0]] + r1[1..]) + [""]
  {
    assert r2[1..] == r1[1..] + [""];
  }

  lemma GrowLastFirst(x: char, r1: seq<string>, r2: seq<string>, c: char)
    requires |r1| >= 1 && r2 == r1[..|r1| - 1] + [r1[|r1| - 1] + [c]]
    ensures var r := [[x] + r1[0]] + r1[1..];
      [[x] + r2[0]] + r2[1..] == r[..|r| - 1] + [r[|r| - 1] + [c]]
  {
    var r := [[x] + r1[0]] + r1[1..];
    if |r1| == 1 {
      assert [x] + (r1[0] + [c]) == ([x] + r1[0]) + [c];
    } else {
      assert r2[1..] == r1[1..|r1| - 1] + [r1[|r1| - 1] + [c]];
      assert r[..|r| - 1] == [[x] + r1[0]] + r1[1..|r1| - 1];
    }
  }

  /** The scan agrees with a list of pieces: outside quotes, the finished
      fields are the trimmed pieces before the last one and the current
      field is the last piece. */
  ghost predicate ScanMatches(st: Scan, pieces: seq<string>)
  {
    !st.inQuotes && |pieces| >= 1
    && st.values == TrimAll(pieces[..|pieces| - 1]) && st.current == pieces[|pieces| - 1]
  }

  /** A comma finishes the last piece and opens an empty one. */
  lemma StepMatchesComma(st: Scan, pieces: seq<string>)
    requires ScanMatches(st, pieces)
    ensures ScanMatches(Step(st, Comma), pieces + [""])
  {
    var n := |pieces|;
    var q := pieces + [""];
    assert Step(st, Comma) == Scan(st.values + [Trim(st.current)], "", false);
    PrefixOfAppend(pieces, [""]);
    TrimAllSnoc(pieces[..n - 1], pieces[n - 1]);
    InitLast(pieces);
  }

  /** Any other non-quote character grows the last piece. */
  lemma StepMatchesOther(st: Scan, pieces: seq<string>, c: char)
    requires ScanMatches(st, pieces) && c != Quote && c != Comma
    ensures ScanMatches(Step(st, c), pieces[..|pieces| - 1] + [pieces[|pieces| - 1] + [c]])
  {
    var n := |pieces|;
    var q := pieces[..n - 1] + [pieces[n - 1] + [c]];
    assert Step(st, c) == st.(current := st.current + [c]);
    assert q[..n - 1] == pieces[..n - 1];
  }

  lemma TrimAllSnoc(pieces: seq<string>, x: string)
    ensures TrimAll(pieces + [x]) == TrimAll(pieces) + [Trim(x)]
  {
  }

  /** On a quote-free line the scan agrees with the pieces of `split(",")`. */
  lemma {:induction false} SplitByScan(line: string)
    requires Quote !in line
    ensures ScanMatches(ScanLine(line), Split(line, Comma))
  {
    if line == [] {
      assert TrimAll([]) == [];
    } else {
      var init := line[..|line| - 1];
      var c := line[|line| - 1];
      assert line == init + [c];
      assert Quote !in init;
      ScanSnoc(init, c);
      SplitByScan(init);
      SplitSnoc(init, c, Comma);
      if c == Comma {
        StepMatchesComma(ScanLine(init), Split(init, Comma));
      } else {
        StepMatchesOther(ScanLine(init), Split(init, Comma), c);
      }
    }
  }

  /** A doubled quote inside a quoted field flips the flag twice and
      leaves nothing behind, so `"a""b"` reads as `ab`; section 2, rule 7
      of RFC 4180 reads it as `a"b`. */
  lemma DoubledQuoteIsDropped()
    ensures SplitFields("\"a\"\"b\"") == ["ab"]
  {
    var s1 := [Quote];
    var s2 := s1 + ['a'];
    var s3 := s2 + [Quote];
    var s4 := s3 + [Quote];
    var s5 := s4 + ['b'];
    var s6 := s5 + [Quote];
    ScanSnoc([], Quote);
    assert [] + [Quote] == s1;
    assert ScanLine(s1) == Scan([], "", true);
    ScanSnoc(s1, 'a');
    assert ScanLine(s2) == Scan([], "a", true);
    ScanSnoc(s2, Quote);
    assert ScanLine(s3) == Scan([], "a", false);
    ScanSnoc(s3, Quote);
    assert ScanLine(s4) == Scan([], "a", true);
    ScanSnoc(s4, 'b');
    assert ScanLine(s5) == Scan([], "ab", true);
    ScanSnoc(s5, Quote);
    assert ScanLine(s6) == Scan([], "ab", false);
    assert s6 == "\"a\"\"b\"";
    TrimPlain();
  }

  /** A field without surrounding white space trims to itself. */
  lemma TrimPlain()
    ensures Trim("ab") == "ab"
  {
    assert !IsWhitespace('a') && !IsWhitespace('b');
    assert LeadingSpace("ab") == 0;
    assert TrailingSpace("ab") == 0;
  }

  /** The scan of a line one character longer takes one more step. */
  lemma ScanSnoc(s: string, c: char)
    ensures ScanLine(s + [c]) == Step(ScanLine(s), c)
  {
    assert (s + [c])[..|s|] == s;
  }

  /** Field `k` of a row, empty when the row is shorter (`undefined` and
      `""` both fall back to the default). */
  function Field(values: seq<string>, k: nat): string
  {
    if k < |values| then values[k] else ""
  }

  /** The difficulty column: Easy or Hard when it says so, Medium for a
      missing or any other value. */
  function DifficultyOf(s: string): (d: Difficulty)
    ensures d == Easy <==> s == "Easy"
    ensures d == Hard <==> s == "Hard"
  {
    if s == "Easy" then Easy else if s == "Hard" then Hard else Medium
  }

  function NonEmptySel(): string -> bool
  {
    (t: string) => t != ""
  }

  /** The topics column: split on ';', pieces trimmed, empty ones dropped. */
  function TopicsOf(s: string): (r: seq<string>)
    ensures forall i :: 0 <= i < |r| ==> r[i] != "" && ';' !in r[i] && Trim(r[i]) == r[i]
    ensures |r| <= |Split(s, ';')|
    ensures IsSubsequence(r, TrimAll(Split(s, ';')))
    ensures |r| == Count(NonEmptySel(), TrimAll(Split(s, ';')))
    ensures forall i :: 0 <= i < |Split(s, ';')| && Trim(Split(s, ';')[i]) != "" ==> Trim(Split(s, ';')[i]) in r
  {
    var pieces := Split(s, ';');
    var trimmed := TrimAll(pieces);
    FilterIsSubsequence(NonEmptySel(), trimmed);
    assert forall i :: 0 <= i < |trimmed| ==> ';' !in trimmed[i] && Trim(trimmed[i]) == trimmed[i] by {
      forall i | 0 <= i < |trimmed| ensures ';' !in trimmed[i] && Trim(trimmed[i]) == trimmed[i] {
        TrimKeepsOut(pieces[i], ';');
        TrimIdempotent(pieces[i]);
      }
    }
    Filter(NonEmptySel(), trimmed)
  }

  /** `parseInt` on a decimal field: an optional sign and the digits that
      follow it; `None` (NaN) when there are none. */
  function LeadingDigits(s: string): (n: nat)
    ensures n <= |s| && forall i :: 0 <= i < n ==> '0' <= s[i] <= '9'
    ensures n < |s| ==> !('0' <= s[n] <= '9')
  {
    if s != [] && '0' <= s[0] <= '9' then 1 + LeadingDigits(s[1..]) else 0
  }

  function DigitsValue(s: string): (v: nat)
    requires forall i :: 0 <= i < |s| ==> '0' <= s[i] <= '9'
  {
    if s == [] then 0 else DigitsValue(s[..|s| - 1]) * 10 + ((s[|s| - 1] as int) - ('0' as int))
  }

  function ParseInt(s: string): (r: Option<int>)
    ensures r.None? <==> LeadingDigits(if s != [] && (s[0] == '-' || s[0] == '+') then s[1..] else s) == 0
  {
    var signed := s != [] && (s[0] == '-' || s[0] == '+');
    var body := if signed then s[1..] else s;
    var n := LeadingDigits(body);
    if n == 0 then None
    else
      var v: int := DigitsValue(body[..n]);
      Some(if signed && s[0] == '-' then -v else v)
  }

  /** `parseInt(field) || 0`. */
  function IntOrZero(s: string): int
  {
    var r := ParseInt(s);
    if r.None? then 0 else r.value
  }

  /** DigitsValue reads a rendered natural number back. */
  lemma {:induction false} DigitsValueOfNat(n: nat)
    ensures DigitsValue(NatToString(n)) == n
  {
    if n >= 10 {
      DigitsValueOfNat(n / 10);
      var s := NatToString(n);
      assert s[..|s| - 1] == NatToString(n / 10);
    }
  }

  /** The fallback id of the row at position `index`. */
  function FallbackId(index: nat): (id: string)
    ensures |id| > |"problem_"| && id[..|"problem_"|] == "problem_"
  {
    "problem_" + NatToString(index)
  }

  /** A row's fields as a catalog problem. */
  function MapRow(values: seq<string>, index: nat): (p: Problem)
    ensures p.id != ""
    ensures Field(values, 0) != "" ==> p.id == Field(values, 0)
    ensures Field(values, 0) == "" ==> p.id == FallbackId(index)
    ensures p.title == Field(values, 1) && p.url == Field(values, 2)
    ensures p.isPremium <==> Field(values, 3) == "Yes"
    ensures p.difficulty == DifficultyOf(Field(values, 5))
    ensures p.difficulty == Medium <==> Field(values, 5) != "Easy" && Field(values, 5) != "Hard"
    ensures p.pattern.None? <==> Field(values, 8) == ""
    ensures p.pattern.Some? ==> p.pattern.value == Field(values, 8)
    ensures p.topics == TopicsOf(Field(values, 7))
    ensures p.questionNo == IntOrZero(Field(values, 9))
  {
    Problem(
      if Field(values, 0) != "" then Field(values, 0) else FallbackId(index),
      Field(values, 1),
      Field(values, 2),
      Field(values, 3) == "Yes",
      DifficultyOf(Field(values, 5)),
      if Field(values, 8) != "" then Some(Field(values, 8)) else None,
      TopicsOf(Field(values, 7)),
      IntOrZero(Field(values, 9)))
  }

  function NotBlankSel(): string -> bool
  {
    (line: string) => Trim(line) != ""
  }

  /** The data lines: every line after the header that is not blank. */
  function DataLines(text: string): (r: seq<string>)
    ensures forall i :: 0 <= i < |r| ==> Trim(r[i]) != ""
    ensures IsSubsequence(r, Split(text, '\n')[1..])
    ensures |r| == Count(NotBlankSel(), Split(text, '\n')[1..])
    ensures forall i :: 1 <= i < |Split(text, '\n')| && Trim(Split(text, '\n')[i]) != "" ==> Split(text, '\n')[i] in r
  {
    var lines := Split(text, '\n');
    FilterIsSubsequence(NotBlankSel(), lines[1..]);
    Filter(NotBlankSel(), lines[1..])
  }

  /** The problems parsed from the CSV text, one per data line, numbered
      among the data lines. */
  function ParseProblems(text: string): (r: seq<Problem>)
    ensures |r| == |DataLines(text)|
    ensures forall i :: 0 <= i < |r| ==> r[i] == MapRow(SplitFields(DataLines(text)[i]), i)
  {
    var lines := DataLines(text);
    seq(|lines|, i requires 0 <= i < |lines| => MapRow(SplitFields(lines[i]), i))
  }

  /** The insertion batches: `slice(i, i + 100)` for i = 0, 100, 200, ... */
  method Batches(problems: seq<Problem>) returns (batches: seq<seq<Problem>>)
    ensures batches == Chunks(problems, BatchSize)
    ensures Flatten(batches) == problems
    ensures forall j :: 0 <= j < |batches| ==> 0 < |batches[j]| <= BatchSize
    ensures |batches| == (|problems| + BatchSize - 1) / BatchSize
  {
    batches := [];
    var i := 0;
    while i < |problems|
      invariant 0 <= i
      invariant batches + Chunks(if i < |problems| then problems[i..] else [], BatchSize) == Chunks(problems, BatchSize)
    {
      var rest := problems[i..];
      var stop := if i + BatchSize < |problems| then i + BatchSize else |problems|;
      var batch := problems[i..stop];
      if |rest| <= BatchSize {
        assert batch == rest;
        assert Chunks(rest, BatchSize) == [batch];
      } else {
        assert batch == rest[..BatchSize];
        assert rest[BatchSize..] == problems[i + BatchSize..];
        assert Chunks(rest, BatchSize) == [batch] + Chunks(problems[i + BatchSize..], BatchSize);
      }
      batches := batches + [batch];
      i := i + BatchSize;
    }
    ChunksPartition(problems, BatchSize);
  }
}
