/** The play-by-play download: one row per play, written as CSV (also used for the spreadsheet
    format) or as plain text, under a file name carrying the day's date. */
module Export {
  import opened Types
  import opened Strings

  /** One exported row. `date` and `time` are the locale-formatted parts of the play's time. */
  datatype ExportRow = ExportRow(date: string, time: string, player: string, action: string,
                                 team: string, points: int)

  /** The row of one play: the side written "Home" or "Away"; `points || 0` is the points. */
  function ToRow(p: Play): ExportRow
  {
    ExportRow(p.timestamp.date, p.timestamp.time, p.playerName, p.action,
              if p.team == Home then "Home" else "Away", p.points)
  }

  function Rows(plays: seq<Play>): (r: seq<ExportRow>)
    ensures |r| == |plays| && forall i :: 0 <= i < |plays| ==> r[i] == ToRow(plays[i])
  {
    seq(|plays|, i requires 0 <= i < |plays| => ToRow(plays[i]))
  }

  const Headers: seq<string> := ["Date", "Time", "Player", "Action", "Team", "Points"]

  /** A row's values in header order. */
  function Cells(row: ExportRow): seq<string>
  {
    [row.date, row.time, row.player, row.action, row.team, IntToString(row.points)]
  }

  // ----- CSV -----

  /** A value between double quotes; quotes inside it are not doubled. */
  function Quote(f: string): string
  {
    ['"'] + f + ['"']
  }

  function QuoteAll(fields: seq<string>): (r: seq<string>)
    ensures |r| == |fields| && forall i :: 0 <= i < |fields| ==> r[i] == Quote(fields[i])
  {
    seq(|fields|, i requires 0 <= i < |fields| => Quote(fields[i]))
  }

  /** One data line: every value quoted, separated by commas. */
  function CsvLine(fields: seq<string>): string
  {
    Join(QuoteAll(fields), ',')
  }

  function CsvLines(rows: seq<ExportRow>): (r: seq<string>)
    ensures |r| == |rows| && forall i :: 0 <= i < |rows| ==> r[i] == CsvLine(Cells(rows[i]))
  {
    seq(|rows|, i requires 0 <= i < |rows| => CsvLine(Cells(rows[i])))
  }

  /** The unquoted header line, then one line per row, joined by newlines. */
  function CsvContent(plays: seq<Play>): string
  {
    Join([Join(Headers, ',')] + CsvLines(Rows(plays)), '\n')
  }

  /** Where the first double quote of `s` is, if anywhere. */
  function FindQuote(s: string): (r: Option<nat>)
    ensures r.Some? ==> r.value < |s| && s[r.value] == '"' && '"' !in s[..r.value]
    ensures r.None? ==> '"' !in s
  {
    if |s| == 0 then None
    else if s[0] == '"' then Some(0)
    else
      match FindQuote(s[1..])
      case None => None
      case Some(k) =>
        assert s[..k + 1] == [s[0]] + s[1..][..k];
        Some(k + 1)
  }

  /** Reads a line of quoted values back, each value running to the next double quote; `None`
      when the line is not of that shape. */
  function ReadLine(s: string): Option<seq<string>>
    decreases |s|
  {
    if |s| == 0 || s[0] != '"' then None
    else
      match FindQuote(s[1..])
      case None => None
      case Some(k) =>
        var after := s[k + 2..];
        if |after| == 0 then Some([s[1..k + 1]])
        else if after[0] != ',' then None
        else Cons(s[1..k + 1], ReadLine(after[1..]))
  }

  /** One value read in front of what the rest of the line reads to. */
  function Cons(f: string, rest: Option<seq<string>>): Option<seq<string>>
  {
    match rest
    case None => None
    case Some(fs) => Some([f] + fs)
  }

  /** The closing quote of a value without quotes is the first quote after the opening one. */
  lemma {:induction false} FindQuoteAfter(f: string, t: string)
    requires '"' !in f
    ensures FindQuote(f + ['"'] + t) == Some(|f|)
  {
    var s := f + ['"'] + t;
    if |f| > 0 {
      assert s[0] == f[0] && s[1..] == f[1..] + ['"'] + t;
      FindQuoteAfter(f[1..], t);
    }
  }

  /** No value of `fields` contains `c`. */
  predicate Free(fields: seq<string>, c: char)
  {
    forall j :: 0 <= j < |fields| ==> c !in fields[j]
  }

  /** A quoted value without quotes is read off the front of a line: alone, it is the line's one
      value; followed by a comma, it comes before the values of the rest. */
  lemma ReadQuoted(f: string, t: string)
    requires '"' !in f
    ensures ReadLine(Quote(f)) == Some([f])
    ensures ReadLine(Quote(f) + [','] + t) == Cons(f, ReadLine(t))
  {
    var s := Quote(f) + [','] + t;
    assert s[1..] == f + ['"'] + ([','] + t);
    FindQuoteAfter(f, [','] + t);
    assert s[|f| + 2..] == [','] + t;
    assert s[|f| + 3..] == t;
    assert s[1..|f| + 1] == f;
    var l := Quote(f);
    assert l[1..] == f + ['"'] + [];
    FindQuoteAfter(f, []);
    assert l[1..|f| + 1] == f;
  }

  /** A line of quoted values reads back to the values, provided none contains a double quote. */
  lemma {:induction false} ReadCsvLine(fields: seq<string>)
    requires |fields| >= 1 && Free(fields, '"')
    ensures ReadLine(CsvLine(fields)) == Some(fields)
  {
    var q := QuoteAll(fields);
    ReadQuoted(fields[0], if |fields| == 1 then [] else CsvLine(fields[1..]));
    if |fields| == 1 {
      assert CsvLine(fields) == Quote(fields[0]);
      assert [fields[0]] == fields;
    } else {
      var rest := CsvLine(fields[1..]);
      assert q[1..] == QuoteAll(fields[1..]);
      assert CsvLine(fields) == Quote(fields[0]) + [','] + rest;
      ReadCsvLine(fields[1..]);
      assert [fields[0]] + fields[1..] == fields;
    }
  }

  /** A data line holds no line break when no value does. */
  lemma CsvLineNoBreak(fields: seq<string>)
    requires Free(fields, '\n')
    ensures '\n' !in CsvLine(fields)
  {
    var q := QuoteAll(fields);
    forall k | 0 <= k < |q| ensures '\n' !in q[k] {
      assert q[k] == ['"'] + fields[k] + ['"'];
    }
    NoSepInJoin(q, ',', '\n');
  }

  /** The CSV download reads back to the plays: its lines are the header and then one line per
      play, in log order, and every such line reads back to that play's values, the points among
      them as their decimal digits. Holds when no exported value contains a double quote or a
      line break. */
  lemma CsvReadsBack(plays: seq<Play>)
    requires forall i :: 0 <= i < |plays| ==> Free(Cells(ToRow(plays[i])), '"') && Free(Cells(ToRow(plays[i])), '\n')
    ensures var lines := Split(CsvContent(plays), '\n');
      && |lines| == |plays| + 1
      && Split(lines[0], ',') == Headers
      && forall i :: 0 <= i < |plays| ==> ReadLine(lines[i + 1]) == Some(Cells(ToRow(plays[i])))
  {
    var lines := CsvLines(Rows(plays));
    var header := Join(Headers, ',');
    HeaderLine();
    CsvSplitsIntoLines(header, lines, plays);
    forall i | 0 <= i < |plays| ensures ReadLine(lines[i]) == Some(Cells(ToRow(plays[i]))) {
      ReadCsvLine(Cells(ToRow(plays[i])));
    }
  }

  /** The header line, the names joined by commas without quotes, is one line that splits at its
      commas into the names. */
  lemma HeaderLine()
    ensures '\n' !in Join(Headers, ',')
    ensures Split(Join(Headers, ','), ',') == Headers
  {
    assert Free(Headers, ',') && Free(Headers, '\n');
    SplitJoin(Headers, ',');
    NoSepInJoin(Headers, ',', '\n');
  }

  lemma CsvSplitsIntoLines(header: string, lines: seq<string>, plays: seq<Play>)
    requires header == Join(Headers, ',') && lines == CsvLines(Rows(plays))
    requires forall i :: 0 <= i < |plays| ==> Free(Cells(ToRow(plays[i])), '\n')
    ensures Split(CsvContent(plays), '\n') == [header] + lines
  {
    var parts := [header] + lines;
    HeaderLine();
    forall k | 0 <= k < |parts| ensures '\n' !in parts[k] {
      if k > 0 {
        CsvLineNoBreak(Cells(ToRow(plays[k - 1])));
      }
    }
    SplitJoin(parts, '\n');
  }

  /** Joining pieces free of a character with a separator other than it leaves it out. */
  lemma {:induction false} NoSepInJoin(parts: seq<string>, sep: char, c: char)
    requires c != sep
    requires forall k :: 0 <= k < |parts| ==> c !in parts[k]
    ensures c !in Join(parts, sep)
  {
    if |parts| > 1 {
      NoSepInJoin(parts[1..], sep, c);
    }
  }

  // ----- Text -----

  /** `date time - player (team): action`, followed by ` (+Npts)` only when the play scored. */
  function TextLine(row: ExportRow): string
  {
    row.date + " " + row.time + " - " + row.player + " (" + row.team + "): " + row.action
      + (if row.points > 0 then " (+" + IntToString(row.points) + "pts)" else "")
  }

  function TextLines(rows: seq<ExportRow>): (r: seq<string>)
    ensures |r| == |rows| && forall i :: 0 <= i < |rows| ==> r[i] == TextLine(rows[i])
  {
    seq(|rows|, i requires 0 <= i < |rows| => TextLine(rows[i]))
  }

  function TextContent(plays: seq<Play>): string
  {
    Join(TextLines(Rows(plays)), '\n')
  }

  /** A text line holds no line break when no value does. */
  lemma TextLineNoBreak(row: ExportRow)
    requires Free(Cells(row), '\n')
    ensures '\n' !in TextLine(row)
  {
    var c := Cells(row);
    assert '\n' !in c[0] && '\n' !in c[1] && '\n' !in c[2] && '\n' !in c[3] && '\n' !in c[4];
    var digits := IntToString(row.points);
    assert '\n' !in digits;
  }

  /** The text download has one line per play, in log order, each holding that play's row;
      the points suffix, whose digits read back to the points, is there exactly when the play
      scored. Holds when no exported value contains a line break. */
  lemma TextReadsBack(plays: seq<Play>)
    requires |plays| >= 1
    requires forall i :: 0 <= i < |plays| ==> Free(Cells(ToRow(plays[i])), '\n')
    ensures var lines := Split(TextContent(plays), '\n');
      && |lines| == |plays|
      && forall i :: 0 <= i < |plays| ==> lines[i] == TextLine(ToRow(plays[i]))
  {
    var lines := TextLines(Rows(plays));
    forall k | 0 <= k < |lines| ensures '\n' !in lines[k] {
      TextLineNoBreak(ToRow(plays[k]));
    }
    SplitJoin(lines, '\n');
  }

  /** A text line is the play's description, followed by ` (+Npts)` exactly when it scored, the
      digits of N reading back to its points. */
  lemma TextLineSuffix(row: ExportRow)
    ensures var head := row.date + " " + row.time + " - " + row.player + " (" + row.team + "): " + row.action;
      && (row.points > 0 ==> exists digits :: TextLine(row) == head + " (+" + digits + "pts)"
                                            && DigitsValue(digits) == row.points)
      && (row.points <= 0 ==> TextLine(row) == head)
  {
    if row.points > 0 {
      NatToStringRoundTrip(row.points);
    }
  }

  // ----- The download -----

  datatype Format = Csv | Xlsx | Txt

  datatype Download = Download(content: string, filename: string, mimeType: string)

  /** `handleExport`: nothing to download for an empty log; otherwise the content for the
      format, named `playbyplay_<date>.<ext>` where the date is the part of the ISO time
      `isoNow` before its first `T`. */
  function ExportPlays(plays: seq<Play>, format: Format, isoNow: string): Option<Download>
  {
    if |plays| == 0 then None
    else
      var day := Split(isoNow, 'T')[0];
      match format
      case Csv => Some(Download(CsvContent(plays), "playbyplay_" + day + ".csv", "text/csv"))
      case Xlsx => Some(Download(CsvContent(plays), "playbyplay_" + day + ".xlsx",
                                 "application/vnd.openxmlformats-officedocument.spreadsheetml.sheet"))
      case Txt => Some(Download(TextContent(plays), "playbyplay_" + day + ".txt", "text/plain"))
  }

  /** An empty log downloads nothing; otherwise the spreadsheet download is the CSV content under
      another extension, and the file name carries the ISO date. */
  lemma ExportShape(plays: seq<Play>, format: Format, date: string, clock: string)
    requires 'T' !in date
    ensures ExportPlays(plays, format, date + "T" + clock).None? <==> |plays| == 0
    ensures |plays| > 0 ==>
      var d := ExportPlays(plays, format, date + "T" + clock).value;
      var ext := match format case Csv => ".csv" case Xlsx => ".xlsx" case Txt => ".txt";
      && d.filename == "playbyplay_" + date + ext
      && d.content == (if format == Txt then TextContent(plays) else CsvContent(plays))
  {
    SplitPrefix(date, clock, 'T');
    assert date + "T" + clock == date + ['T'] + clock;
  }
}
