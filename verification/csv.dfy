/**
 * The CSV export, and a reader for section 2 of RFC 4180 that takes LF for the line break (the
 * exporter writes LF where the RFC has CRLF).
 */
module Csv {
  import opened Wrappers
  import opened Decimals

  datatype CsvGroup = CsvGroup(key: string, values: seq<real>)

  // ----- the exporter -----

  /** A non-negative number with four decimals, rounded half up. */
  function Unsigned4(v: real): string
    requires v >= 0.0
  {
    var n := (v * 10000.0 + 0.5).Floor as nat;
    Digits(n / 10000) + "." + Padded(n % 10000, 4)
  }

  function Fixed4(v: real): string {
    if v < 0.0 then "-" + Unsigned4(-v) else Unsigned4(v)
  }

  /** Every quote doubled. */
  function Doubled(s: string): string {
    if s == "" then "" else (if s[0] == '"' then "\"\"" else [s[0]]) + Doubled(s[1..])
  }

  function Join(parts: seq<string>, sep: string): string {
    if parts == [] then "" else if |parts| == 1 then parts[0] else parts[0] + sep + Join(parts[1..], sep)
  }

  /** A field as the exporter writes it: keys quoted, everything else bare. */
  datatype Field = Quoted(text: string) | Bare(text: string)

  function Written(f: Field): string {
    match f
    case Quoted(text) => "\"" + Doubled(text) + "\""
    case Bare(text) => text
  }

  function ValueOr0(values: seq<real>, i: nat): real {
    if i < |values| then values[i] else 0.0
  }

  function HeaderFields(groups: seq<CsvGroup>): seq<Field> {
    [Bare("period")] + seq(|groups|, g requires 0 <= g < |groups| => Quoted(groups[g].key))
  }

  function RowFields(time: string, i: nat, groups: seq<CsvGroup>): seq<Field> {
    [Bare(time)] + seq(|groups|, g requires 0 <= g < |groups| => Bare(Fixed4(ValueOr0(groups[g].values, i))))
  }

  /** The fields of every line, header first. */
  function Lines(times: seq<string>, groups: seq<CsvGroup>): seq<seq<Field>> {
    [HeaderFields(groups)] + seq(|times|, i requires 0 <= i < |times| => RowFields(times[i], i, groups))
  }

  function WrittenLine(fields: seq<Field>): string {
    Join(seq(|fields|, i requires 0 <= i < |fields| => Written(fields[i])), ",")
  }

  function WrittenLines(lines: seq<seq<Field>>): string {
    Join(seq(|lines|, i requires 0 <= i < |lines| => WrittenLine(lines[i])), "\n")
  }

  function ToCsv(times: seq<string>, groups: seq<CsvGroup>): string {
    WrittenLines(Lines(times, groups))
  }

  // ----- the reader -----

  predicate Special(c: char) {
    c == ',' || c == '"' || c == '\n' || c == '\r'
  }

  predicate Clean(s: string) {
    forall i :: 0 <= i < |s| ==> !Special(s[i])
  }

  /** A bare field runs up to the next special character. */
  function ReadBare(s: string): (string, string) {
    if s == "" || Special(s[0]) then ("", s)
    else
      var (text, rest) := ReadBare(s[1..]);
      ([s[0]] + text, rest)
  }

  /** A quoted field, past its opening quote: a doubled quote stands for one, a single one closes. */
  function ReadQuoted(s: string): Option<(string, string)> {
    if s == "" then None
    else if s[0] != '"' then
      match ReadQuoted(s[1..])
      case None => None
      case Some((text, rest)) => Some(([s[0]] + text, rest))
    else if |s| > 1 && s[1] == '"' then
      match ReadQuoted(s[2..])
      case None => None
      case Some((text, rest)) => Some(("\"" + text, rest))
    else Some(("", s[1..]))
  }

  function ReadField(s: string): Option<(string, string)> {
    if s != "" && s[0] == '"' then ReadQuoted(s[1..]) else Some(ReadBare(s))
  }

  lemma {:induction false} ReadBareShortens(s: string)
    ensures |ReadBare(s).1| <= |s|
  {
    if s != "" && !Special(s[0]) {
      ReadBareShortens(s[1..]);
    }
  }

  lemma {:induction false} ReadQuotedShortens(s: string)
    ensures ReadQuoted(s).Some? ==> |ReadQuoted(s).value.1| < |s|
    decreases |s|
  {
    if s != "" {
      if s[0] != '"' {
        ReadQuotedShortens(s[1..]);
      } else if |s| > 1 && s[1] == '"' {
        ReadQuotedShortens(s[2..]);
      }
    }
  }

  lemma ReadFieldShortens(s: string)
    ensures ReadField(s).Some? ==> |ReadField(s).value.1| <= |s|
  {
    if s != "" && s[0] == '"' {
      ReadQuotedShortens(s[1..]);
    } else {
      ReadBareShortens(s);
    }
  }

  /** Fields between commas, up to a line break or the end. */
  function ReadRecord(s: string): Option<(seq<string>, string)>
    decreases |s|
  {
    ReadFieldShortens(s);
    match ReadField(s)
    case None => None
    case Some((text, rest)) =>
      if rest == "" || rest[0] == '\n' then Some(([text], rest))
      else if rest[0] == ',' then
        match ReadRecord(rest[1..])
        case None => None
        case Some((more, after)) => Some(([text] + more, after))
      else None
  }

  lemma {:induction false} ReadRecordShortens(s: string)
    ensures ReadRecord(s).Some? ==> |ReadRecord(s).value.1| <= |s|
    decreases |s|
  {
    ReadFieldShortens(s);
    if ReadField(s).Some? {
      var rest := ReadField(s).value.1;
      if rest != "" && rest[0] == ',' {
        ReadRecordShortens(rest[1..]);
      }
    }
  }

  /** The records of a file: one per line, where the last may or may not end in a line break. */
  function ReadCsv(s: string): Option<seq<seq<string>>>
    decreases |s|
  {
    ReadRecordShortens(s);
    match ReadRecord(s)
    case None => None
    case Some((record, rest)) => if |rest| <= 1 then Some([record]) else Behind([record], ReadCsv(rest[1..]))
  }

  function Behind(first: seq<seq<string>>, more: Option<seq<seq<string>>>): Option<seq<seq<string>>> {
    if more.None? then None else Some(first + more.value)
  }

  /** What is left after a line break: possibly nothing. */
  function ReadRest(s: string): Option<seq<seq<string>>> {
    if s == "" then Some([]) else ReadCsv(s)
  }

  // ----- reading what was written -----

  /** What may follow a field. */
  predicate Follows(rest: string) {
    rest == "" || rest[0] == ',' || rest[0] == '\n'
  }

  lemma {:induction false} BareReadsBack(text: string, rest: string)
    requires Clean(text) && Follows(rest)
    ensures ReadBare(text + rest) == (text, rest)
  {
    if text == "" {
      assert text + rest == rest;
    } else {
      assert (text + rest)[1..] == text[1..] + rest;
      BareReadsBack(text[1..], rest);
      assert [text[0]] + text[1..] == text;
    }
  }

  lemma {:induction false} QuotedReadsBack(text: string, rest: string)
    requires Follows(rest)
    ensures ReadQuoted(Doubled(text) + "\"" + rest) == Some((text, rest))
  {
    var s := Doubled(text) + "\"" + rest;
    if text == "" {
      assert s == "\"" + rest;
      assert s[1..] == rest;
    } else {
      QuotedReadsBack(text[1..], rest);
      var tail := Doubled(text[1..]) + "\"" + rest;
      if text[0] == '"' {
        assert s == "\"\"" + tail;
        assert s[2..] == tail;
        assert text == "\"" + text[1..];
      } else {
        assert s == [text[0]] + tail;
        assert s[1..] == tail;
        assert text == [text[0]] + text[1..];
      }
    }
  }

  predicate Readable(f: Field) {
    f.Bare? ==> Clean(f.text)
  }

  lemma QuotedFieldReadsBack(text: string, rest: string)
    requires Follows(rest)
    ensures ReadField(Written(Quoted(text)) + rest) == Some((text, rest))
  {
    var s, inner := Written(Quoted(text)) + rest, Doubled(text) + "\"" + rest;
    QuotedReadsBack(text, rest);
    assert s == "\"" + inner;
    assert s[0] == '"' && s[1..] == inner;
  }

  lemma BareFieldReadsBack(text: string, rest: string)
    requires Clean(text) && Follows(rest)
    ensures ReadField(Written(Bare(text)) + rest) == Some((text, rest))
  {
    BareReadsBack(text, rest);
    if text == "" {
      assert text + rest == rest;
    }
  }

  lemma FieldReadsBack(f: Field, rest: string)
    requires Readable(f) && Follows(rest)
    ensures ReadField(Written(f) + rest) == Some((f.text, rest))
  {
    match f
    case Quoted(text) => QuotedFieldReadsBack(text, rest);
    case Bare(text) => BareFieldReadsBack(text, rest);
  }

  function Texts(fields: seq<Field>): seq<string> {
    seq(|fields|, i requires 0 <= i < |fields| => fields[i].text)
  }

  lemma WrittenLineCons(fields: seq<Field>)
    requires |fields| > 1
    ensures WrittenLine(fields) == Written(fields[0]) + "," + WrittenLine(fields[1..])
  {
    var parts := seq(|fields|, i requires 0 <= i < |fields| => Written(fields[i]));
    assert parts[1..] == seq(|fields| - 1, i requires 0 <= i < |fields| - 1 => Written(fields[1..][i]));
  }

  lemma LastFieldReads(f: Field, rest: string)
    requires Readable(f) && (rest == "" || rest[0] == '\n')
    ensures ReadRecord(Written(f) + rest) == Some(([f.text], rest))
  {
    FieldReadsBack(f, rest);
  }

  lemma FieldThenRecord(f: Field, tail: string, texts: seq<string>, rest: string)
    requires Readable(f) && ReadRecord(tail) == Some((texts, rest))
    ensures ReadRecord(Written(f) + ("," + tail)) == Some(([f.text] + texts, rest))
  {
    FieldReadsBack(f, "," + tail);
    assert ("," + tail)[1..] == tail;
  }

  lemma Regroup(a: string, b: string, c: string, d: string)
    ensures a + b + c + d == a + (b + (c + d))
  {
  }

  lemma TextsCons(fields: seq<Field>)
    requires fields != []
    ensures Texts(fields) == [fields[0].text] + Texts(fields[1..])
  {
  }

  lemma {:induction false} LineReadsBack(fields: seq<Field>, rest: string)
    requires fields != [] && (forall i :: 0 <= i < |fields| ==> Readable(fields[i]))
    requires rest == "" || rest[0] == '\n'
    ensures ReadRecord(WrittenLine(fields) + rest) == Some((Texts(fields), rest))
    decreases |fields|
  {
    if |fields| == 1 {
      LastFieldReads(fields[0], rest);
      assert Texts(fields) == [fields[0].text];
    } else {
      WrittenLineCons(fields);
      LineReadsBack(fields[1..], rest);
      FieldThenRecord(fields[0], WrittenLine(fields[1..]) + rest, Texts(fields[1..]), rest);
      Regroup(Written(fields[0]), ",", WrittenLine(fields[1..]), rest);
      TextsCons(fields);
    }
  }

  // ----- whole files -----

  /** The table an export stands for: "period" and the keys, then a row per time. */
  function Table(times: seq<string>, groups: seq<CsvGroup>): seq<seq<string>> {
    AllTexts(Lines(times, groups))
  }

  function AllTexts(lines: seq<seq<Field>>): seq<seq<string>> {
    seq(|lines|, i requires 0 <= i < |lines| => Texts(lines[i]))
  }

  predicate ReadableLine(fields: seq<Field>) {
    fields != [] && forall i :: 0 <= i < |fields| ==> Readable(fields[i])
  }

  /** Readable lines before the rest of a file: read one by one, then the rest on its own. */
  function Before(lines: seq<seq<Field>>, rest: string): string {
    if lines == [] then rest else WrittenLine(lines[0]) + "\n" + Before(lines[1..], rest)
  }

  lemma LineThenRest(fields: seq<Field>, tail: string)
    requires ReadableLine(fields)
    ensures ReadCsv(WrittenLine(fields) + "\n" + tail) == Behind([Texts(fields)], ReadRest(tail))
  {
    LineReadsBack(fields, "\n" + tail);
    assert WrittenLine(fields) + "\n" + tail == WrittenLine(fields) + ("\n" + tail);
    assert ("\n" + tail)[1..] == tail;
    assert [Texts(fields)] + [] == [Texts(fields)];
  }

  lemma BehindTwice(a: seq<seq<string>>, b: seq<seq<string>>, r: Option<seq<seq<string>>>)
    ensures Behind(a, Behind(b, r)) == Behind(a + b, r)
  {
    if r.Some? {
      assert a + (b + r.value) == a + b + r.value;
    }
  }

  lemma {:induction false} LinesReadBack(lines: seq<seq<Field>>, rest: string)
    requires forall i :: 0 <= i < |lines| ==> ReadableLine(lines[i])
    ensures ReadRest(Before(lines, rest)) == Behind(AllTexts(lines), ReadRest(rest))
    decreases |lines|
  {
    if lines == [] {
      if ReadRest(rest).Some? {
        assert AllTexts(lines) + ReadRest(rest).value == ReadRest(rest).value;
      }
    } else {
      LinesReadBack(lines[1..], rest);
      FirstLineThen(lines, rest);
      BehindTwice([Texts(lines[0])], AllTexts(lines[1..]), ReadRest(rest));
      AllTextsCons(lines);
    }
  }

  lemma FirstLineThen(lines: seq<seq<Field>>, rest: string)
    requires lines != [] && ReadableLine(lines[0])
    ensures ReadRest(Before(lines, rest)) == Behind([Texts(lines[0])], ReadRest(Before(lines[1..], rest)))
  {
    LineThenRest(lines[0], Before(lines[1..], rest));
  }

  lemma AllTextsCons(lines: seq<seq<Field>>)
    requires lines != []
    ensures AllTexts(lines) == [Texts(lines[0])] + AllTexts(lines[1..])
  {
  }

  lemma {:induction false} WrittenLinesSplit(lines: seq<seq<Field>>, k: nat)
    requires k < |lines|
    ensures WrittenLines(lines) == Before(lines[..k], WrittenLines(lines[k..]))
  {
    if k == 0 {
      assert lines[0..] == lines;
    } else {
      WrittenLinesCons(lines);
      WrittenLinesSplit(lines[1..], k - 1);
      assert lines[..k][1..] == lines[1..][..k - 1];
      assert lines[1..][k - 1..] == lines[k..];
    }
  }

  lemma WrittenLinesCons(lines: seq<seq<Field>>)
    requires |lines| > 1
    ensures WrittenLines(lines) == WrittenLine(lines[0]) + "\n" + WrittenLines(lines[1..])
  {
    var parts := seq(|lines|, i requires 0 <= i < |lines| => WrittenLine(lines[i]));
    assert parts[1..] == seq(|lines| - 1, i requires 0 <= i < |lines| - 1 => WrittenLine(lines[1..][i]));
  }

  lemma OneWrittenLine(line: seq<Field>)
    ensures WrittenLines([line]) == WrittenLine(line)
  {
  }

  /** Readable lines read back as they are, unless the last one is written as nothing at all. */
  lemma ReadableFileReadsBack(lines: seq<seq<Field>>)
    requires |lines| > 1 && forall i :: 0 <= i < |lines| ==> ReadableLine(lines[i])
    ensures WrittenLine(lines[|lines| - 1]) != "" ==> ReadCsv(WrittenLines(lines)) == Some(AllTexts(lines))
    ensures WrittenLine(lines[|lines| - 1]) == "" ==>
      ReadCsv(WrittenLines(lines)) == Some(AllTexts(lines[..|lines| - 1]))
  {
    var n := |lines| - 1;
    WrittenLinesSplit(lines, n);
    assert lines[n..] == [lines[n]];
    OneWrittenLine(lines[n]);
    LinesReadBack(lines[..n], WrittenLine(lines[n]));
    assert AllTexts(lines[..n]) + [] == AllTexts(lines[..n]);
    if WrittenLine(lines[n]) != "" {
      LineReadsBack(lines[n], "");
      assert WrittenLine(lines[n]) + "" == WrittenLine(lines[n]);
      assert AllTexts(lines) == AllTexts(lines[..n]) + [Texts(lines[n])];
    }
  }

  // ----- numbers and keys are always readable -----

  lemma FixedIsClean(v: real)
    ensures Clean(Fixed4(v)) && Fixed4(v) != ""
  {
    var u := if v < 0.0 then -v else v;
    var n := (u * 10000.0 + 0.5).Floor as nat;
    assert Clean(Digits(n / 10000));
    assert Clean(Padded(n % 10000, 4));
  }

  lemma RowIsReadable(time: string, i: nat, groups: seq<CsvGroup>)
    requires Clean(time)
    ensures ReadableLine(RowFields(time, i, groups))
  {
    var fields := RowFields(time, i, groups);
    forall k | 0 <= k < |fields|
      ensures Readable(fields[k])
    {
      if k > 0 {
        FixedIsClean(ValueOr0(groups[k - 1].values, i));
      }
    }
  }

  lemma LinesAreReadable(times: seq<string>, groups: seq<CsvGroup>, k: nat)
    requires k <= |times| && forall i :: 0 <= i < k ==> Clean(times[i])
    ensures forall i :: 0 <= i <= k ==> ReadableLine(Lines(times, groups)[i])
  {
    forall i | 0 <= i <= k
      ensures ReadableLine(Lines(times, groups)[i])
    {
      if i > 0 {
        RowIsReadable(times[i - 1], i - 1, groups);
      }
    }
  }

  lemma RowText(time: string, i: nat, groups: seq<CsvGroup>) returns (tail: string)
    ensures WrittenLine(RowFields(time, i, groups)) == time + tail
    ensures if groups == [] then tail == "" else tail != "" && tail[0] == ','
  {
    var fields := RowFields(time, i, groups);
    if groups == [] {
      tail := "";
    } else {
      WrittenLineCons(fields);
      tail := "," + WrittenLine(fields[1..]);
    }
  }

  // ----- what a time that is not clean does -----

  function LeadingQuotes(s: string): nat {
    if s != "" && s[0] == '"' then 1 + LeadingQuotes(s[1..]) else 0
  }

  lemma {:induction false} LeadingQuotesConcat(s: string, rest: string)
    requires rest == "" || rest[0] != '"'
    ensures LeadingQuotes(s + rest) == LeadingQuotes(s)
  {
    if s == "" {
      assert s + rest == rest;
    } else {
      assert (s + rest)[1..] == s[1..] + rest;
      LeadingQuotesConcat(s[1..], rest);
    }
  }

  lemma {:induction false} DoubledDoublesQuotes(s: string, rest: string)
    ensures LeadingQuotes(Doubled(s) + rest) >= 2 * LeadingQuotes(s)
  {
    if s != "" && s[0] == '"' {
      var t := Doubled(s[1..]) + rest;
      DoubledDoublesQuotes(s[1..], rest);
      assert Doubled(s) + rest == "\"\"" + t;
      assert ("\"\"" + t)[1..] == "\"" + t && ("\"" + t)[1..] == t;
    }
  }

  /** The reader takes a quoted field only in the form the exporter writes. */
  lemma {:induction false} ReadQuotedIsExact(s: string)
    ensures ReadQuoted(s).Some? ==>
      s == Doubled(ReadQuoted(s).value.0) + "\"" + ReadQuoted(s).value.1
    decreases |s|
  {
    if s != "" {
      if s[0] != '"' {
        ReadQuotedIsExact(s[1..]);
        if ReadQuoted(s[1..]).Some? {
          var (text, rest) := ReadQuoted(s[1..]).value;
          assert ([s[0]] + text)[1..] == text;
          assert s == [s[0]] + s[1..];
        }
      } else if |s| > 1 && s[1] == '"' {
        ReadQuotedIsExact(s[2..]);
        if ReadQuoted(s[2..]).Some? {
          var (text, rest) := ReadQuoted(s[2..]).value;
          assert ("\"" + text)[1..] == text;
          assert s == "\"\"" + s[2..];
        }
      } else {
        assert s == "\"" + s[1..];
      }
    }
  }

  lemma {:induction false} ReadBareIsClean(s: string)
    ensures Clean(ReadBare(s).0)
  {
    if s != "" && !Special(s[0]) {
      ReadBareIsClean(s[1..]);
    }
  }

  lemma OneMoreQuote(s: string)
    ensures LeadingQuotes("\"" + s) == 1 + LeadingQuotes(s)
  {
    assert ("\"" + s)[1..] == s;
  }

  /** A text that starts with a quote is never its own quoted form: every opening quote would have to double. */
  lemma NotItsOwnQuotedForm(text: string, rest: string, tail: string)
    requires text != "" && text[0] == '"' && Follows(rest)
    ensures text + rest != "\"" + (Doubled(text) + tail)
  {
    LeadingQuotesConcat(text, rest);
    DoubledDoublesQuotes(text, tail);
    OneMoreQuote(Doubled(text) + tail);
  }

  lemma Assoc(a: string, b: string, c: string)
    ensures a + b + c == a + (b + c)
  {
  }

  /** A time that starts with a quote does not read back as itself. */
  lemma QuotedTimeIsLost(time: string, rest: string)
    requires time != "" && time[0] == '"' && Follows(rest)
    ensures var read := ReadQuoted((time + rest)[1..]);
      read.Some? ==> read.value.0 != time
  {
    var tail := (time + rest)[1..];
    ReadQuotedIsExact(tail);
    if ReadQuoted(tail).Some? {
      var after := ReadQuoted(tail).value.1;
      assert time + rest == "\"" + tail;
      NotItsOwnQuotedForm(time, rest, "\"" + after);
      Assoc(Doubled(time), "\"", after);
    }
  }

  /** A time that is not clean does not read back as itself. */
  lemma DirtyTimeIsLost(time: string, rest: string)
    requires !Clean(time) && Follows(rest)
    ensures ReadField(time + rest).Some? ==> ReadField(time + rest).value.0 != time
  {
    if time[0] != '"' {
      ReadBareIsClean(time + rest);
    } else {
      QuotedTimeIsLost(time, rest);
    }
  }

  lemma RecordStartsWithField(s: string)
    ensures ReadRecord(s).Some? ==> ReadField(s).Some? && ReadRecord(s).value.0 != []
    ensures ReadRecord(s).Some? ==> ReadRecord(s).value.0[0] == ReadField(s).value.0
  {
  }

  lemma FileStartsWithRecord(s: string)
    ensures ReadCsv(s).Some? ==> ReadRecord(s).Some? && ReadCsv(s).value != []
    ensures ReadCsv(s).Some? ==> ReadCsv(s).value[0] == ReadRecord(s).value.0
  {
  }

  lemma DirtyLineIsLost(time: string, rest: string, columns: seq<string>)
    requires !Clean(time) && Follows(rest)
    ensures ReadCsv(time + rest).Some? ==> ReadCsv(time + rest).value != []
    ensures ReadCsv(time + rest).Some? ==> ReadCsv(time + rest).value[0] != [time] + columns
  {
    FileStartsWithRecord(time + rest);
    RecordStartsWithField(time + rest);
    DirtyTimeIsLost(time, rest);
  }

  /** The text of the lines from the k-th row on starts with that row's time. */
  lemma RowsFrom(times: seq<string>, groups: seq<CsvGroup>, k: nat) returns (rest: string)
    requires k < |times|
    ensures WrittenLines(Lines(times, groups)[k + 1..]) == times[k] + rest && Follows(rest)
  {
    var lines := Lines(times, groups)[k + 1..];
    var tail := RowText(times[k], k, groups);
    assert lines[0] == RowFields(times[k], k, groups);
    if |lines| == 1 {
      assert lines == [lines[0]];
      OneWrittenLine(lines[0]);
      rest := tail;
    } else {
      WrittenLinesCons(lines);
      rest := tail + "\n" + WrittenLines(lines[1..]);
      assert times[k] + tail + "\n" + WrittenLines(lines[1..]) == times[k] + rest;
    }
  }

  /** Records read behind others differ from a table that differs in that place. */
  lemma BehindDiffers(first: seq<seq<string>>, more: Option<seq<seq<string>>>, table: seq<seq<string>>)
    requires |first| < |table|
    requires more.Some? ==> more.value != [] && more.value[0] != table[|first|]
    ensures Behind(first, more) != Some(table)
  {
    if more.Some? {
      assert (first + more.value)[|first|] == more.value[0];
    }
  }

  /** From a dirty time on, what is read is not that time's row. */
  lemma DirtyRowIsLost(times: seq<string>, groups: seq<CsvGroup>, k: nat, rest: string)
    requires k < |times| && !Clean(times[k]) && Follows(rest) && k + 1 < |Table(times, groups)|
    ensures ReadCsv(times[k] + rest).Some? ==> ReadCsv(times[k] + rest).value != []
    ensures ReadCsv(times[k] + rest).Some? ==> ReadCsv(times[k] + rest).value[0] != Table(times, groups)[k + 1]
  {
    var row := Texts(RowFields(times[k], k, groups));
    assert Lines(times, groups)[k + 1] == RowFields(times[k], k, groups);
    assert row == [times[k]] + row[1..];
    DirtyLineIsLost(times[k], rest, row[1..]);
  }

  lemma DirtyFileIsLost(times: seq<string>, groups: seq<CsvGroup>, k: nat)
    requires k < |times| && !Clean(times[k]) && forall i :: 0 <= i < k ==> Clean(times[i])
    ensures ReadCsv(ToCsv(times, groups)) != Some(Table(times, groups))
  {
    var lines := Lines(times, groups);
    var rest := RowsFrom(times, groups, k);
    LinesAreReadable(times, groups, k);
    WrittenLinesSplit(lines, k + 1);
    LinesReadBack(lines[..k + 1], times[k] + rest);
    DirtyRowIsLost(times, groups, k, rest);
    BehindDiffers(AllTexts(lines[..k + 1]), ReadCsv(times[k] + rest), Table(times, groups));
  }

  lemma FirstDirty(times: seq<string>) returns (k: nat)
    requires exists i :: 0 <= i < |times| && !Clean(times[i])
    ensures k < |times| && !Clean(times[k]) && forall i :: 0 <= i < k ==> Clean(times[i])
  {
    k := 0;
    while Clean(times[k])
      invariant k < |times| && forall i :: 0 <= i < k ==> Clean(times[i])
      invariant exists i :: k <= i < |times| && !Clean(times[i])
      decreases |times| - k
    {
      k := k + 1;
    }
  }

  /** The exporter's blind spots: a time it should have quoted, or a last row written as nothing at all. */
  predicate Survives(times: seq<string>, groups: seq<CsvGroup>) {
    && (forall i, j :: 0 <= i < |times| && 0 <= j < |times[i]| ==> times[i][j] !in {',', '"', '\n', '\r'})
    && !(groups == [] && times != [] && times[|times| - 1] == "")
  }

  /**
   * CSV round trip. Reading the export gives back its table, whatever commas, quotes or line
   * breaks the keys hold, exactly when every time is free of comma, quote and line break and the
   * export does not end in a row written as nothing (no groups and an empty last time).
   */
  lemma RoundTripIff(times: seq<string>, groups: seq<CsvGroup>)
    ensures ReadCsv(ToCsv(times, groups)) == Some(Table(times, groups)) <==> Survives(times, groups)
  {
    if exists i :: 0 <= i < |times| && !Clean(times[i]) {
      var k := FirstDirty(times);
      DirtyFileIsLost(times, groups, k);
    } else {
      CleanFileReadsBack(times, groups);
    }
  }

  lemma CleanFileReadsBack(times: seq<string>, groups: seq<CsvGroup>)
    requires forall i :: 0 <= i < |times| ==> Clean(times[i])
    ensures ReadCsv(ToCsv(times, groups)) == Some(Table(times, groups)) <==> Survives(times, groups)
  {
    var lines := Lines(times, groups);
    LinesAreReadable(times, groups, |times|);
    if times == [] {
      assert lines == [lines[0]];
      OneWrittenLine(lines[0]);
      LineReadsBack(lines[0], "");
      assert WrittenLine(lines[0]) + "" == WrittenLine(lines[0]);
      assert AllTexts(lines) == [Texts(lines[0])];
    } else {
      var last := |times| - 1;
      ReadableFileReadsBack(lines);
      var tail := RowText(times[last], last, groups);
      assert lines[|lines| - 1] == RowFields(times[last], last, groups);
      assert |AllTexts(lines[..|lines| - 1])| != |AllTexts(lines)|;
    }
  }

  /** "period" and the keys. */
  predicate IsHeader(row: seq<string>, groups: seq<CsvGroup>) {
    |row| == |groups| + 1 && row[0] == "period" && forall g :: 0 <= g < |groups| ==> row[g + 1] == groups[g].key
  }

  /** The i-th time and every group's value there with four decimals, missing ones being 0. */
  predicate IsRow(row: seq<string>, time: string, i: nat, groups: seq<CsvGroup>) {
    && |row| == |groups| + 1 && row[0] == time
    && (forall g :: 0 <= g < |groups| && i < |groups[g].values| ==> row[g + 1] == Fixed4(groups[g].values[i]))
    && (forall g :: 0 <= g < |groups| && i >= |groups[g].values| ==> row[g + 1] == Fixed4(0.0))
  }

  lemma HeaderTexts(groups: seq<CsvGroup>)
    ensures IsHeader(Texts(HeaderFields(groups)), groups)
  {
  }

  lemma CellText(time: string, i: nat, groups: seq<CsvGroup>, g: nat)
    requires g < |groups|
    ensures g + 1 < |Texts(RowFields(time, i, groups))|
    ensures Texts(RowFields(time, i, groups))[g + 1] == Fixed4(ValueOr0(groups[g].values, i))
  {
  }

  lemma RowTexts(time: string, i: nat, groups: seq<CsvGroup>)
    ensures IsRow(Texts(RowFields(time, i, groups)), time, i, groups)
  {
    var row := Texts(RowFields(time, i, groups));
    assert |row| == |groups| + 1 && row[0] == time;
    forall g | 0 <= g < |groups|
      ensures i < |groups[g].values| ==> row[g + 1] == Fixed4(groups[g].values[i])
      ensures i >= |groups[g].values| ==> row[g + 1] == Fixed4(0.0)
    {
      CellText(time, i, groups, g);
    }
  }

  lemma TableLines(times: seq<string>, groups: seq<CsvGroup>)
    ensures |Table(times, groups)| == |times| + 1
    ensures Table(times, groups)[0] == Texts(HeaderFields(groups))
  {
  }

  lemma TableLine(times: seq<string>, groups: seq<CsvGroup>, i: nat)
    requires i < |times| && |Table(times, groups)| == |times| + 1
    ensures Table(times, groups)[i + 1] == Texts(RowFields(times[i], i, groups))
  {
    assert Lines(times, groups)[i + 1] == RowFields(times[i], i, groups);
  }

  /** Every row of the table has one field more than there are groups, and carries the four-decimal values. */
  lemma TableShape(times: seq<string>, groups: seq<CsvGroup>)
    ensures |Table(times, groups)| == |times| + 1 && IsHeader(Table(times, groups)[0], groups)
    ensures forall i :: 0 <= i < |times| ==> IsRow(Table(times, groups)[i + 1], times[i], i, groups)
  {
    TableLines(times, groups);
    HeaderTexts(groups);
    forall i | 0 <= i < |times|
      ensures IsRow(Table(times, groups)[i + 1], times[i], i, groups)
    {
      TableLine(times, groups, i);
      RowTexts(times[i], i, groups);
    }
  }

  // ----- the numbers -----

  predicate AllDigits(s: string) {
    forall i :: 0 <= i < |s| ==> '0' <= s[i] <= '9'
  }

  predicate IsUnsigned4(s: string) {
    |s| > 5 && s[|s| - 5] == '.' && AllDigits(s[..|s| - 5]) && AllDigits(s[|s| - 4..])
  }

  predicate IsFixed4(s: string) {
    s != "" && IsUnsigned4(if s[0] == '-' then s[1..] else s)
  }

  /** Reading a number with four decimals. */
  function ReadUnsigned4(s: string): real
    requires IsUnsigned4(s)
  {
    (NumberOf(s[..|s| - 5]) * 10000 + NumberOf(s[|s| - 4..])) as real / 10000.0
  }

  function ReadFixed4(s: string): real
    requires IsFixed4(s)
  {
    if s[0] == '-' then -ReadUnsigned4(s[1..]) else ReadUnsigned4(s)
  }

  lemma Unsigned4ReadsBack(n: nat)
    ensures var s := Digits(n / 10000) + "." + Padded(n % 10000, 4);
      IsUnsigned4(s) && s[0] != '-' && ReadUnsigned4(s) == n as real / 10000.0
  {
    var whole, frac := Digits(n / 10000), Padded(n % 10000, 4);
    var s := whole + "." + frac;
    assert s[..|s| - 5] == whole && s[|s| - 4..] == frac;
    DigitsReadBack(n / 10000);
    PaddedReadsBack(n % 10000, 4);
  }

  /** An exported value reads back to within half of the last decimal, with halves going away from zero. */
  lemma Fixed4Accurate(v: real)
    ensures IsFixed4(Fixed4(v))
    ensures v >= 0.0 ==> -0.00005 < ReadFixed4(Fixed4(v)) - v <= 0.00005
    ensures v < 0.0 ==> -0.00005 <= ReadFixed4(Fixed4(v)) - v < 0.00005
  {
    var u := if v < 0.0 then -v else v;
    Unsigned4ReadsBack((u * 10000.0 + 0.5).Floor);
    assert v < 0.0 ==> Fixed4(v)[1..] == Unsigned4(u);
  }

  // ----- an export as it is written -----

  lemma PaddedExample(n: nat)
    requires n == 5000
    ensures Padded(n, 4) == "5000"
  {
    assert Padded(n / 1000, 1) == [Digit(5)];
    assert Padded(n / 100, 2) == Padded(n / 1000, 1) + [Digit(0)];
    assert Padded(n / 10, 3) == Padded(n / 100, 2) + [Digit(0)];
  }

  lemma FixedOf(v: real, n: nat)
    requires v >= 0.0 && (v * 10000.0 + 0.5).Floor == n
    ensures Fixed4(v) == Digits(n / 10000) + "." + Padded(n % 10000, 4)
  {
  }

  lemma FixedExample(v: real, n: nat)
    requires v == 1.5 && n == 15000
    ensures Fixed4(v) == "1.5000"
  {
    FixedOf(v, n);
    PaddedExample(n % 10000);
    assert Digits(n / 10000) == "1";
  }

  lemma DoubledExample()
    ensures Doubled("a,\"b") == "a,\"\"b"
  {
    assert Doubled("b") == "b";
    assert Doubled("\"b") == "\"\"b";
    assert Doubled(",\"b") == ",\"\"b";
  }

  lemma TwoFields(f: Field, g: Field)
    ensures WrittenLine([f, g]) == Written(f) + "," + Written(g)
  {
    WrittenLineCons([f, g]);
    assert WrittenLine([g]) == Written(g);
  }

  lemma TwoLines(a: seq<Field>, b: seq<Field>)
    ensures WrittenLines([a, b]) == WrittenLine(a) + "\n" + WrittenLine(b)
  {
    WrittenLinesCons([a, b]);
    OneWrittenLine(b);
  }

  /** One time and one group whose key holds a comma and a quote. */
  lemma ExportExample(time: string)
    ensures ToCsv([time], [CsvGroup("a,\"b", [1.5])]) == "period,\"a,\"\"b\"\n" + time + ",1.5000"
  {
    var groups := [CsvGroup("a,\"b", [1.5])];
    var header, row := [Bare("period"), Quoted("a,\"b")], [Bare(time), Bare(Fixed4(1.5))];
    assert HeaderFields(groups) == header && RowFields(time, 0, groups) == row;
    assert Lines([time], groups) == [header, row];
    TwoLines(header, row);
    TwoFields(header[0], header[1]);
    TwoFields(row[0], row[1]);
    DoubledExample();
    FixedExample(1.5, 15000);
  }
}
