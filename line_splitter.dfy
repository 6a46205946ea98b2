/** The quote-aware field splitter that the inventory import of
    sklad/views.py runs on every line of a CSV or TXT stock report: a double
    quote toggles "inside quotes" and is dropped, the delimiter splits only
    outside quotes, and each field is stripped of whitespace and then of
    double quotes. */
module LineSplitter {

  // ---------------------------------------------------------------- stripping

  /** str.isspace: the characters str.strip() removes when called with no
      argument. */
  predicate IsSpace(c: char)
  {
    c == ' ' || '\t' <= c <= '\r' || '\U{001C}' <= c <= '\U{001F}'
    || c == '\U{0085}' || c == '\U{00A0}' || c == '\U{1680}'
    || '\U{2000}' <= c <= '\U{200A}' || c == '\U{2028}' || c == '\U{2029}'
    || c == '\U{202F}' || c == '\U{205F}' || c == '\U{3000}'
  }

  predicate IsQuote(c: char)
  {
    c == '"'
  }

  /** Drops the leading characters that satisfy `drop`. */
  function DropStart(s: string, drop: char -> bool): string
  {
    if s != [] && drop(s[0]) then DropStart(s[1..], drop) else s
  }

  /** Drops the trailing characters that satisfy `drop`. */
  function DropEnd(s: string, drop: char -> bool): string
  {
    if s != [] && drop(s[|s| - 1]) then DropEnd(s[..|s| - 1], drop) else s
  }

  /** What is left is a suffix of `s`, everything dropped satisfies `drop`
      and what is left does not start with such a character. */
  lemma {:induction false} DropStartShape(s: string, drop: char -> bool)
    ensures var r := DropStart(s, drop);
      && |r| <= |s| && r == s[|s| - |r|..]
      && (forall j :: 0 <= j < |s| - |r| ==> drop(s[j]))
      && (r != [] ==> !drop(r[0]))
  {
    if s != [] && drop(s[0]) {
      DropStartShape(s[1..], drop);
    }
  }

  /** What is left is a prefix of `s`, everything dropped satisfies `drop`
      and what is left does not end with such a character. */
  lemma {:induction false} DropEndShape(s: string, drop: char -> bool)
    ensures var r := DropEnd(s, drop);
      && |r| <= |s| && r == s[..|r|]
      && (forall j :: |r| <= j < |s| ==> drop(s[j]))
      && (r != [] ==> !drop(r[|r| - 1]))
  {
    if s != [] && drop(s[|s| - 1]) {
      DropEndShape(s[..|s| - 1], drop);
    }
  }

  /** str.strip(chars): both ends. */
  function Strip(s: string, drop: char -> bool): string
  {
    DropEnd(DropStart(s, drop), drop)
  }

  predicate StrippedOf(s: string, drop: char -> bool)
  {
    s == [] || (!drop(s[0]) && !drop(s[|s| - 1]))
  }

  predicate NoQuote(s: string)
  {
    forall j :: 0 <= j < |s| ==> s[j] != '"'
  }

  /** A stripped text has nothing left to strip on either end, lies inside
      the original, and keeps a text that had nothing to strip unchanged. */
  lemma StripShape(s: string, drop: char -> bool)
    ensures StrippedOf(Strip(s, drop), drop)
    ensures NoQuote(s) ==> NoQuote(Strip(s, drop))
    ensures StrippedOf(s, drop) ==> Strip(s, drop) == s
  {
    var t := DropStart(s, drop);
    var r := DropEnd(t, drop);
    DropStartShape(s, drop);
    DropEndShape(t, drop);
    if r != [] {
      assert r[0] == t[0];
    }
    if NoQuote(s) {
      forall j | 0 <= j < |r| ensures r[j] != '"' {
        assert r[j] == t[j] == s[|s| - |t| + j];
      }
    }
  }

  /** The cleaning applied to every field: .strip().strip('"'). */
  function Clean(s: string): string
  {
    Strip(Strip(s, IsSpace), IsQuote)
  }

  /** A field without double quotes is only stripped of whitespace. */
  lemma CleanNoQuote(s: string)
    requires NoQuote(s)
    ensures Clean(s) == Strip(s, IsSpace)
    ensures NoQuote(Clean(s)) && StrippedOf(Clean(s), IsSpace)
  {
    StripShape(s, IsSpace);
    var w := Strip(s, IsSpace);
    assert StrippedOf(w, IsQuote) by {
      if w != [] {
        assert w[0] != '"' && w[|w| - 1] != '"';
      }
    }
    StripShape(w, IsQuote);
  }

  // ---------------------------------------------------------------- scanning

  /** The loop variables of the splitter: the fields finished so far, the
      field being read, and whether the scan is inside quotes. */
  datatype Scan = Scan(parts: seq<string>, current: string, inQuotes: bool)

  const Start := Scan([], "", false)

  /** What one character does to the loop variables. */
  function Step(st: Scan, c: char, delimiter: char): Scan
  {
    if c == '"' then st.(inQuotes := !st.inQuotes)
    else if c == delimiter && !st.inQuotes then Scan(st.parts + [Clean(st.current)], "", st.inQuotes)
    else st.(current := st.current + [c])
  }

  /** The loop variables after reading all of `s` from `st`. */
  function ScanFrom(st: Scan, s: string, delimiter: char): Scan
  {
    if s == [] then st
    else Step(ScanFrom(st, s[..|s| - 1], delimiter), s[|s| - 1], delimiter)
  }

  /** The fields of a line. */
  function SplitLine(line: string, delimiter: char): seq<string>
  {
    var st := ScanFrom(Start, line, delimiter);
    st.parts + [Clean(st.current)]
  }

  /** The for loop over the characters of a line. */
  method SplitFields(line: string, delimiter: char) returns (parts: seq<string>)
    ensures parts == SplitLine(line, delimiter)
  {
    parts := [];
    var current := "";
    var inQuotes := false;
    for k := 0 to |line|
      invariant Scan(parts, current, inQuotes) == ScanFrom(Start, line[..k], delimiter)
    {
      assert line[..k + 1][..k] == line[..k];
      var c := line[k];
      if c == '"' {
        inQuotes := !inQuotes;
      } else if c == delimiter && !inQuotes {
        parts := parts + [Clean(current)];
        current := "";
      } else {
        current := current + [c];
      }
    }
    assert line[..|line|] == line;
    parts := parts + [Clean(current)];
  }

  // ---------------------------------------------------------------- counting

  function QuoteCount(s: string): nat
  {
    if s == [] then 0
    else QuoteCount(s[..|s| - 1]) + (if s[|s| - 1] == '"' then 1 else 0)
  }

  /** The delimiters of `s` preceded by an even number of double quotes. */
  function DelimitersOutside(s: string, delimiter: char): nat
  {
    if s == [] then 0
    else
      var init, c := s[..|s| - 1], s[|s| - 1];
      DelimitersOutside(init, delimiter)
      + (if c == delimiter && c != '"' && QuoteCount(init) % 2 == 0 then 1 else 0)
  }

  /** What the loop keeps: inside quotes exactly after an odd number of
      quotes, one finished field per delimiter outside quotes, and no double
      quote and no outer whitespace in any finished field. */
  lemma {:induction false} ScanFacts(s: string, delimiter: char)
    ensures var st := ScanFrom(Start, s, delimiter);
      && st.inQuotes == (QuoteCount(s) % 2 == 1)
      && |st.parts| == DelimitersOutside(s, delimiter)
      && NoQuote(st.current)
      && forall k :: 0 <= k < |st.parts| ==> NoQuote(st.parts[k]) && StrippedOf(st.parts[k], IsSpace)
  {
    if s != [] {
      var init := s[..|s| - 1];
      ScanFacts(init, delimiter);
      var st := ScanFrom(Start, init, delimiter);
      if s[|s| - 1] != '"' && s[|s| - 1] == delimiter && !st.inQuotes {
        CleanNoQuote(st.current);
      }
    }
  }

  /** A line splits into one field more than it has delimiters outside
      quotes; no field holds a double quote and every field is stripped. */
  lemma SplitLineFacts(line: string, delimiter: char)
    ensures |SplitLine(line, delimiter)| == 1 + DelimitersOutside(line, delimiter)
    ensures forall k :: 0 <= k < |SplitLine(line, delimiter)| ==>
              NoQuote(SplitLine(line, delimiter)[k]) && StrippedOf(SplitLine(line, delimiter)[k], IsSpace)
  {
    ScanFacts(line, delimiter);
    CleanNoQuote(ScanFrom(Start, line, delimiter).current);
  }

  // ---------------------------------------------------------------- round trips

  lemma {:induction false} ScanConcat(st: Scan, a: string, b: string, delimiter: char)
    ensures ScanFrom(st, a + b, delimiter) == ScanFrom(ScanFrom(st, a, delimiter), b, delimiter)
  {
    if b != [] {
      assert (a + b)[..|a + b| - 1] == a + b[..|b| - 1];
      assert (a + b)[|a + b| - 1] == b[|b| - 1];
      ScanConcat(st, a, b[..|b| - 1], delimiter);
    } else {
      assert a + b == a;
    }
  }

  /** A text with no double quote and no delimiter only extends the field
      being read. */
  lemma {:induction false} ScanPlain(st: Scan, f: string, delimiter: char)
    requires NoQuote(f) && forall j :: 0 <= j < |f| ==> f[j] != delimiter
    ensures ScanFrom(st, f, delimiter) == st.(current := st.current + f)
  {
    if f != [] {
      ScanPlain(st, f[..|f| - 1], delimiter);
      assert st.current + f[..|f| - 1] + [f[|f| - 1]] == st.current + f;
    }
  }

  /** Inside quotes the delimiter is an ordinary character. */
  lemma {:induction false} ScanQuoted(st: Scan, f: string, delimiter: char)
    requires st.inQuotes && NoQuote(f)
    ensures ScanFrom(st, f, delimiter) == st.(current := st.current + f)
  {
    if f != [] {
      ScanQuoted(st, f[..|f| - 1], delimiter);
      assert st.current + f[..|f| - 1] + [f[|f| - 1]] == st.current + f;
    }
  }

  predicate Plain(f: string, delimiter: char)
  {
    NoQuote(f) && StrippedOf(f, IsSpace) && forall j :: 0 <= j < |f| ==> f[j] != delimiter
  }

  /** The fields written out with the delimiter between them. */
  function Join(fields: seq<string>, delimiter: char): string
    requires fields != []
  {
    if |fields| == 1 then fields[0]
    else Join(fields[..|fields| - 1], delimiter) + [delimiter] + fields[|fields| - 1]
  }

  function Quoted(f: string): string
  {
    ['"'] + f + ['"']
  }

  /** The fields written out quoted, with the delimiter between them. */
  function JoinQuoted(fields: seq<string>, delimiter: char): string
    requires fields != []
  {
    if |fields| == 1 then Quoted(fields[0])
    else JoinQuoted(fields[..|fields| - 1], delimiter) + [delimiter] + Quoted(fields[|fields| - 1])
  }

  lemma InitLast<T>(s: seq<T>)
    requires s != []
    ensures s[..|s| - 1] + [s[|s| - 1]] == s
  {
  }

  /** A field with nothing to clean comes out of Clean as it is. */
  lemma CleanKeeps(f: string)
    requires NoQuote(f) && StrippedOf(f, IsSpace)
    ensures Clean(f) == f
  {
    StripShape(f, IsSpace);
    CleanNoQuote(f);
  }

  /** A delimiter outside quotes closes the field being read. */
  lemma ScanDelimiter(st: Scan, delimiter: char)
    requires delimiter != '"' && !st.inQuotes
    requires NoQuote(st.current) && StrippedOf(st.current, IsSpace)
    ensures ScanFrom(st, [delimiter], delimiter) == Scan(st.parts + [st.current], "", false)
  {
    assert [delimiter][..0] == [];
    CleanKeeps(st.current);
  }

  lemma {:induction false} ScanJoin(fields: seq<string>, delimiter: char)
    requires fields != [] && delimiter != '"'
    requires forall k :: 0 <= k < |fields| ==> Plain(fields[k], delimiter)
    ensures ScanFrom(Start, Join(fields, delimiter), delimiter)
         == Scan(fields[..|fields| - 1], fields[|fields| - 1], false)
  {
    var n := |fields|;
    if n == 1 {
      ScanPlain(Start, fields[0], delimiter);
    } else {
      var init := fields[..n - 1];
      var prefix := Join(init, delimiter);
      ScanJoin(init, delimiter);
      assert Plain(init[n - 2], delimiter);
      var st := ScanFrom(Start, prefix, delimiter);
      ScanConcat(Start, prefix + [delimiter], fields[n - 1], delimiter);
      ScanConcat(Start, prefix, [delimiter], delimiter);
      ScanDelimiter(st, delimiter);
      InitLast(init);
      ScanPlain(Scan(init, "", false), fields[n - 1], delimiter);
    }
  }

  /** Splitting fields joined by the delimiter gives them back, as long as
      no field holds the delimiter, a double quote or outer whitespace. */
  lemma SplitJoin(fields: seq<string>, delimiter: char)
    requires fields != [] && delimiter != '"'
    requires forall k :: 0 <= k < |fields| ==> Plain(fields[k], delimiter)
    ensures SplitLine(Join(fields, delimiter), delimiter) == fields
  {
    var n := |fields|;
    ScanJoin(fields, delimiter);
    assert Plain(fields[n - 1], delimiter);
    CleanKeeps(fields[n - 1]);
    InitLast(fields);
  }

  /** Between quotes a field is read whole, whatever delimiters it holds. */
  lemma ScanQuotedField(st: Scan, f: string, delimiter: char)
    requires delimiter != '"' && !st.inQuotes && NoQuote(f)
    ensures ScanFrom(st, Quoted(f), delimiter) == st.(current := st.current + f)
  {
    ScanConcat(st, ['"'] + f, ['"'], delimiter);
    ScanConcat(st, ['"'], f, delimiter);
    assert ['"'][..0] == [];
    ScanQuoted(st.(inQuotes := true), f, delimiter);
    assert ['"'][..0] == [];
  }

  lemma {:induction false} ScanJoinQuoted(fields: seq<string>, delimiter: char)
    requires fields != [] && delimiter != '"'
    requires forall k :: 0 <= k < |fields| ==> NoQuote(fields[k]) && StrippedOf(fields[k], IsSpace)
    ensures ScanFrom(Start, JoinQuoted(fields, delimiter), delimiter)
         == Scan(fields[..|fields| - 1], fields[|fields| - 1], false)
  {
    var n := |fields|;
    var f := fields[n - 1];
    if n == 1 {
      ScanQuotedField(Start, f, delimiter);
    } else {
      var init := fields[..n - 1];
      var prefix := JoinQuoted(init, delimiter);
      ScanJoinQuoted(init, delimiter);
      var st := ScanFrom(Start, prefix, delimiter);
      assert NoQuote(init[n - 2]) && StrippedOf(init[n - 2], IsSpace);
      ScanConcat(Start, prefix, [delimiter], delimiter);
      ScanDelimiter(st, delimiter);
      InitLast(init);
      var st0 := Scan(init, "", false);
      ScanConcat(Start, prefix + [delimiter], Quoted(f), delimiter);
      ScanQuotedField(st0, f, delimiter);
    }
  }

  /** Quoting lets a field carry the delimiter: quoted fields joined by the
      delimiter split back into the fields. */
  lemma SplitJoinQuoted(fields: seq<string>, delimiter: char)
    requires fields != [] && delimiter != '"'
    requires forall k :: 0 <= k < |fields| ==> NoQuote(fields[k]) && StrippedOf(fields[k], IsSpace)
    ensures SplitLine(JoinQuoted(fields, delimiter), delimiter) == fields
  {
    var n := |fields|;
    ScanJoinQuoted(fields, delimiter);
    CleanKeeps(fields[n - 1]);
    InitLast(fields);
  }
}
