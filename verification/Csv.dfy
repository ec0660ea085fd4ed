/** Splitting a line of a bank statement in CSV, and what it inverts. */
module Csv {

  // ---------------------------------------------------------------------------
  // Trimming
  // ---------------------------------------------------------------------------

  /** The white space and line terminators that ECMAScript trims. */
  predicate IsSpace(c: char) {
    c in "\t\n\U{B}\U{C}\r \U{A0}\U{1680}\U{2028}\U{2029}\U{202F}\U{205F}\U{3000}\U{FEFF}"
    || '\U{2000}' <= c <= '\U{200A}'
  }

  function TrimStart(s: string): (r: string)
    ensures r != "" ==> !IsSpace(r[0])
  {
    if s != "" && IsSpace(s[0]) then TrimStart(s[1..]) else s
  }

  function TrimEnd(s: string): (r: string)
    ensures r != "" ==> !IsSpace(r[|r| - 1])
    ensures r <= s
  {
    if s != "" && IsSpace(s[|s| - 1]) then TrimEnd(s[..|s| - 1]) else s
  }

  function Trim(s: string): string {
    TrimEnd(TrimStart(s))
  }

  predicate IsTrimmed(s: string) {
    s == "" || (!IsSpace(s[0]) && !IsSpace(s[|s| - 1]))
  }

  /** Trimming yields a trimmed string and changes exactly the others. */
  lemma {:induction false} TrimIsTrimmed(s: string)
    ensures IsTrimmed(Trim(s))
    ensures Trim(s) == s <==> IsTrimmed(s)
  {
  }

  predicate HasQuote(s: string) {
    '"' in s
  }

  lemma {:induction false} TrimAddsNoQuote(s: string)
    ensures HasQuote(Trim(s)) ==> HasQuote(s)
    decreases |s|
  {
    if s != "" && IsSpace(s[0]) {
      TrimAddsNoQuote(s[1..]);
    }
  }

  // ---------------------------------------------------------------------------
  // Splitting
  // ---------------------------------------------------------------------------

  function Prepend(head: string, fields: seq<string>): (r: seq<string>)
    requires |fields| > 0
    ensures |r| == |fields|
  {
    fields[0 := head + fields[0]]
  }

  /** The raw fields of the rest of a line, `quoted` telling whether it starts inside quotes. */
  function Fields(line: string, quoted: bool): (fields: seq<string>)
    ensures |fields| > 0
  {
    if line == "" then [""]
    else if line[0] == '"' then Fields(line[1..], !quoted)
    else if line[0] == ',' && !quoted then [""] + Fields(line[1..], false)
    else Prepend([line[0]], Fields(line[1..], quoted))
  }

  function Trimmed(fields: seq<string>): (r: seq<string>)
    ensures |r| == |fields|
  {
    seq(|fields|, i requires 0 <= i < |fields| => Trim(fields[i]))
  }

  function Split(line: string): seq<string> {
    Trimmed(Fields(line, false))
  }

  /** The scan of `splitCsvLine`: one pass, a current field and a quote flag. */
  method SplitCsvLine(line: string) returns (out: seq<string>)
    ensures out == Split(line)
  {
    hide Fields, Trim, Split;
    out := [];
    var cur := "";
    var inQuotes := false;
    NothingScanned(line);
    for i := 0 to |line|
      invariant Split(line) == out + Trimmed(Prepend(cur, Fields(line[i..], inQuotes)))
    {
      var ch := line[i];
      ScanStep(cur, line[i..], inQuotes);
      assert line[i..][1..] == line[i + 1..];
      if ch == '"' {
        inQuotes := !inQuotes;
      } else if ch == ',' && !inQuotes {
        out := out + [Trim(cur)];
        cur := "";
      } else {
        cur := cur + [ch];
      }
    }
    AllScanned(cur, line[|line|..], inQuotes);
    out := out + [Trim(cur)];
  }

  lemma {:induction false} NothingScanned(line: string)
    ensures Split(line) == [] + Trimmed(Prepend("", Fields(line[0..], false)))
  {
    assert line[0..] == line;
    PrependNothing(Fields(line, false));
  }

  lemma {:induction false} AllScanned(cur: string, rest: string, quoted: bool)
    requires rest == ""
    ensures Trimmed(Prepend(cur, Fields(rest, quoted))) == [Trim(cur)]
  {
    assert cur + "" == cur;
  }

  lemma {:induction false} PrependNothing(fields: seq<string>)
    requires |fields| > 0
    ensures Prepend("", fields) == fields
  {
    assert "" + fields[0] == fields[0];
  }

  /** One character of the scan. */
  lemma {:induction false} ScanStep(cur: string, rest: string, quoted: bool)
    requires rest != ""
    ensures var now, c, tail := Trimmed(Prepend(cur, Fields(rest, quoted))), rest[0], rest[1..];
            if c == '"' then now == Trimmed(Prepend(cur, Fields(tail, !quoted)))
            else if c == ',' && !quoted then now == [Trim(cur)] + Trimmed(Prepend("", Fields(tail, false)))
            else now == Trimmed(Prepend(cur + [c], Fields(tail, quoted)))
  {
    hide Trim;
    var c, tail := rest[0], rest[1..];
    if c == ',' && !quoted {
      assert cur + "" == cur;
      var fields := Fields(tail, false);
      PrependNothing(fields);
      assert Prepend(cur, [""] + fields) == [cur] + fields;
    } else if c != '"' {
      var fields := Fields(tail, quoted);
      assert cur + ([c] + fields[0]) == cur + [c] + fields[0];
    }
  }

  // ---------------------------------------------------------------------------
  // How many fields
  // ---------------------------------------------------------------------------

  function Quotes(s: string): nat {
    if s == "" then 0 else Quotes(s[..|s| - 1]) + if s[|s| - 1] == '"' then 1 else 0
  }

  /** The commas among the first n characters that an even number of quotes precedes. */
  function Separators(line: string, n: nat): nat
    requires n <= |line|
  {
    if n == 0 then 0
    else Separators(line, n - 1) + if line[n - 1] == ',' && Quotes(line[..n - 1]) % 2 == 0 then 1 else 0
  }

  lemma {:induction false} RemainingFields(line: string, n: nat)
    requires n <= |line|
    ensures |Fields(line, false)| == Separators(line, n) + |Fields(line[n..], Quotes(line[..n]) % 2 == 1)|
  {
    if n == 0 {
      assert line[0..] == line;
    } else {
      RemainingFields(line, n - 1);
      assert line[n - 1..][1..] == line[n..];
      assert line[..n][..n - 1] == line[..n - 1];
    }
  }

  /** A line has one field more than commas at even quote depth. */
  lemma {:induction false} FieldCount(line: string)
    ensures |Split(line)| == 1 + Separators(line, |line|)
  {
    RemainingFields(line, |line|);
    assert line[|line|..] == "";
  }

  // ---------------------------------------------------------------------------
  // Round trip
  // ---------------------------------------------------------------------------

  /** A writer that quotes every field. */
  function Write(fields: seq<string>): string {
    if |fields| == 0 then ""
    else if |fields| == 1 then "\"" + fields[0] + "\""
    else "\"" + fields[0] + "\"" + "," + Write(fields[1..])
  }

  lemma {:induction false} QuotedText(text: string, tail: string)
    requires !HasQuote(text)
    ensures Fields(text + "\"" + tail, true) == Prepend(text, Fields(tail, false))
  {
    var line := text + "\"" + tail;
    if text == "" {
      assert line[1..] == tail;
      PrependNothing(Fields(tail, false));
    } else {
      assert line[1..] == text[1..] + "\"" + tail;
      QuotedText(text[1..], tail);
      assert [text[0]] + (text[1..] + Fields(tail, false)[0]) == text + Fields(tail, false)[0];
    }
  }

  lemma {:induction false} QuotedField(text: string, tail: string)
    requires !HasQuote(text)
    ensures Fields("\"" + text + "\"" + tail, false) == Prepend(text, Fields(tail, false))
  {
    var line := "\"" + text + "\"" + tail;
    assert line[0] == '"' && line[1..] == text + "\"" + tail;
    QuotedText(text, tail);
  }

  predicate NoQuotes(fields: seq<string>) {
    forall i :: 0 <= i < |fields| ==> !HasQuote(fields[i])
  }

  /** Without quotes in them the written fields are read back raw. */
  lemma {:induction false} WrittenFields(fields: seq<string>)
    requires |fields| > 0 && NoQuotes(fields)
    ensures Fields(Write(fields), false) == fields
  {
    if |fields| == 1 {
      QuotedField(fields[0], "");
      assert Write(fields) == "\"" + fields[0] + "\"" + "";
      assert fields[0] + "" == fields[0];
    } else {
      var rest := Write(fields[1..]);
      WrittenFields(fields[1..]);
      QuotedField(fields[0], "," + rest);
      assert Write(fields) == "\"" + fields[0] + "\"" + ("," + rest);
      assert ("," + rest)[1..] == rest;
      assert fields[0] + "" == fields[0];
      assert fields == [fields[0]] + fields[1..];
    }
  }

  lemma {:induction false} FieldsHaveNoQuotes(line: string, quoted: bool)
    ensures NoQuotes(Fields(line, quoted))
    decreases |line|
  {
    if line != "" {
      FieldsHaveNoQuotes(line[1..], if line[0] == '"' then !quoted else quoted);
      var fields := Fields(line[1..], quoted);
      if line[0] != '"' && !(line[0] == ',' && !quoted) {
        assert !HasQuote(fields[0]);
        assert !HasQuote([line[0]] + fields[0]);
      }
    }
  }

  predicate AllTrimmed(fields: seq<string>) {
    forall i :: 0 <= i < |fields| ==> IsTrimmed(fields[i])
  }

  /**
   * Splitting gives back the fields that a quoting writer joined exactly when there is at least one field and
   * each is trimmed and free of double quotes.
   */
  lemma {:induction false} RoundTripIff(fields: seq<string>)
    ensures Split(Write(fields)) == fields <==> |fields| > 0 && AllTrimmed(fields) && NoQuotes(fields)
  {
    var split := Split(Write(fields));
    SplitIsClean(Write(fields));
    if |fields| > 0 && AllTrimmed(fields) && NoQuotes(fields) {
      WrittenFields(fields);
      forall i | 0 <= i < |fields|
        ensures split[i] == fields[i]
      {
        TrimIsTrimmed(fields[i]);
      }
    }
  }

  // ---------------------------------------------------------------------------
  // Without quotes
  // ---------------------------------------------------------------------------

  /** A writer that quotes nothing. */
  function Join(fields: seq<string>): string {
    if |fields| == 0 then "" else if |fields| == 1 then fields[0] else fields[0] + "," + Join(fields[1..])
  }

  predicate NoCommas(fields: seq<string>) {
    forall i :: 0 <= i < |fields| ==> ',' !in fields[i]
  }

  lemma {:induction false} PlainText(text: string, tail: string)
    requires '"' !in text && ',' !in text
    ensures Fields(text + tail, false) == Prepend(text, Fields(tail, false))
  {
    if text == "" {
      assert text + tail == tail;
      PrependNothing(Fields(tail, false));
    } else {
      assert (text + tail)[1..] == text[1..] + tail;
      PlainText(text[1..], tail);
      assert [text[0]] + (text[1..] + Fields(tail, false)[0]) == text + Fields(tail, false)[0];
    }
  }

  lemma {:induction false} JoinedFields(fields: seq<string>)
    requires |fields| > 0 && NoQuotes(fields) && NoCommas(fields)
    ensures Fields(Join(fields), false) == fields
  {
    if |fields| == 1 {
      PlainText(fields[0], "");
      assert fields[0] + "" == fields[0];
    } else {
      var rest := Join(fields[1..]);
      JoinedFields(fields[1..]);
      PlainText(fields[0], "," + rest);
      assert Join(fields) == fields[0] + ("," + rest);
      assert ("," + rest)[1..] == rest;
      assert fields[0] + "" == fields[0];
      assert fields == [fields[0]] + fields[1..];
    }
  }

  /** Without quotes every comma of a text separates. */
  lemma {:induction false} PlainCount(text: string, tail: string)
    requires '"' !in text
    ensures |Fields(text + tail, false)| >= |Fields(tail, false)|
    ensures ',' in text ==> |Fields(text + tail, false)| > |Fields(tail, false)|
  {
    if text == "" {
      assert text + tail == tail;
    } else {
      assert (text + tail)[1..] == text[1..] + tail;
      PlainCount(text[1..], tail);
    }
  }

  lemma {:induction false} JoinedCount(fields: seq<string>)
    requires |fields| > 0 && NoQuotes(fields)
    ensures |Fields(Join(fields), false)| >= |fields|
    ensures !NoCommas(fields) ==> |Fields(Join(fields), false)| > |fields|
  {
    assert forall i :: 0 <= i < |fields| ==> '"' !in fields[i];
    if |fields| == 1 {
      assert fields[0] + "" == fields[0];
      PlainCount(fields[0], "");
    } else {
      var rest := Join(fields[1..]);
      JoinedCount(fields[1..]);
      PlainCount(fields[0], "," + rest);
      assert Join(fields) == fields[0] + ("," + rest);
      assert ("," + rest)[1..] == rest;
      assert |Fields("," + rest, false)| == 1 + |Fields(rest, false)|;
      assert NoCommas(fields[1..]) && ',' !in fields[0] ==> NoCommas(fields);
    }
  }

  /**
   * Splitting gives back what a writer without quotes joined exactly when there is at least one field and each is
   * trimmed and free of double quotes and commas.
   */
  lemma {:induction false} PlainRoundTripIff(fields: seq<string>)
    ensures Split(Join(fields)) == fields <==>
              |fields| > 0 && AllTrimmed(fields) && NoQuotes(fields) && NoCommas(fields)
  {
    var split := Split(Join(fields));
    SplitIsClean(Join(fields));
    if |fields| > 0 && NoQuotes(fields) {
      JoinedCount(fields);
      if AllTrimmed(fields) && NoCommas(fields) {
        JoinedFields(fields);
        forall i | 0 <= i < |fields|
          ensures split[i] == fields[i]
        {
          TrimIsTrimmed(fields[i]);
        }
      }
    }
  }

  /** Whatever the line, the fields are trimmed and free of double quotes. */
  lemma {:induction false} SplitIsClean(line: string)
    ensures AllTrimmed(Split(line)) && NoQuotes(Split(line)) && |Split(line)| > 0
  {
    FieldsHaveNoQuotes(line, false);
    forall i | 0 <= i < |Split(line)|
      ensures IsTrimmed(Split(line)[i]) && !HasQuote(Split(line)[i])
    {
      var raw := Fields(line, false)[i];
      assert !HasQuote(raw);
      TrimIsTrimmed(raw);
      TrimAddsNoQuote(raw);
    }
  }

  /** No printing ASCII character is white space; the blank, the tab and the line ends are. */
  lemma {:induction false} SpacesAre(c: char)
    ensures '!' <= c <= '~' ==> !IsSpace(c)
    ensures c == ' ' || '\t' <= c <= '\r' ==> IsSpace(c)
  {
  }
}
