/** The instructor portal's client-side roster import: pulling the emails out
    of an uploaded CSV text before they are posted to the participation
    route, and the check that refuses to post an empty list. JavaScript's
    `undefined` read from a missing cell is modelled by the text it becomes
    when a string is appended to it. */
module InstructorPortal {
  import opened Text

  /** The characters JavaScript's `.` does not match. The lines have already
      been split at '\n'. */
  predicate IsLineTerminator(c: char)
  {
    c == '\n' || c == '\r' || c == '\U{2028}' || c == '\U{2029}'
  }

  predicate HasLineTerminator(s: string)
  {
    |s| > 0 && (IsLineTerminator(s[0]) || HasLineTerminator(s[1..]))
  }

  /** `s.replace(",", "")`: the first comma goes, the rest stay. */
  function RemoveFirstComma(s: string): (r: string)
    ensures ',' !in s ==> r == s
    ensures ',' in s ==> |r| == |s| - 1
  {
    var k := IndexOf(s, ',');
    if k < 0 then s else s[..k] + s[k + 1..]
  }

  /** `line.replace(/"(.*?)"/g, ...)`: scanning from the left, each quoted
      span (a quote, the shortest run without line terminators, a quote)
      keeps its quotes and loses its first comma. A quote with no closing
      quote after it is left alone; when a line terminator sits before the
      next quote, the match is retried from the character after the
      opening quote. */
  function ReplaceQuoted(line: string): string
    decreases |line|
  {
    var i := IndexOf(line, '"');
    if i < 0 then line
    else
      var rest := line[i + 1..];
      var j := IndexOf(rest, '"');
      if j < 0 then line
      else if HasLineTerminator(rest[..j]) then line[..i + 1] + ReplaceQuoted(rest)
      else line[..i] + "\"" + RemoveFirstComma(rest[..j]) + "\"" + ReplaceQuoted(rest[j + 1..])
  }

  /** The text with every `c` taken out. */
  function Without(s: string, c: char): string
  {
    if |s| == 0 then ""
    else (if s[0] == c then "" else [s[0]]) + Without(s[1..], c)
  }

  lemma {:induction false} WithoutConcat(a: string, b: string, c: char)
    ensures Without(a + b, c) == Without(a, c) + Without(b, c)
  {
    if |a| == 0 {
      assert a + b == b;
    } else {
      var h := if a[0] == c then "" else [a[0]];
      assert (a + b)[0] == a[0];
      assert (a + b)[1..] == a[1..] + b;
      WithoutConcat(a[1..], b, c);
      calc {
        Without(a + b, c);
        h + Without(a[1..] + b, c);
        h + (Without(a[1..], c) + Without(b, c));
        (h + Without(a[1..], c)) + Without(b, c);
      }
    }
  }

  /** Taking out a character other than the quote distributes over a quoted
      span and what surrounds it. */
  lemma WithoutQuoted(x: string, y: string, z: string, c: char)
    requires c != '"'
    ensures Without(x + "\"" + y + "\"" + z, c)
         == Without(x, c) + "\"" + Without(y, c) + "\"" + Without(z, c)
  {
    WithoutConcat(x + "\"" + y + "\"", z, c);
    WithoutConcat(x + "\"" + y, "\"", c);
    WithoutConcat(x + "\"", y, c);
    WithoutConcat(x, "\"", c);
    assert Without("\"", c) == "\"";
  }

  /** Exactly one comma goes when there is one: the text with its commas
      taken out is the same and it is one shorter. */
  lemma RemoveFirstCommaOnlyComma(s: string)
    ensures Without(RemoveFirstComma(s), ',') == Without(s, ',')
  {
    var k := IndexOf(s, ',');
    if k >= 0 {
      assert s == s[..k] + ([','] + s[k + 1..]);
      WithoutConcat(s[..k], [','] + s[k + 1..], ',');
      WithoutConcat([','], s[k + 1..], ',');
      WithoutConcat(s[..k], s[k + 1..], ',');
    }
  }

  /** Rewriting the quoted spans only ever removes commas: with the commas
      taken out the line is the same, quotes included, and it never grows. */
  lemma {:induction false} ReplaceQuotedOnlyRemovesCommas(line: string)
    ensures Without(ReplaceQuoted(line), ',') == Without(line, ',')
    ensures |ReplaceQuoted(line)| <= |line|
    decreases |line|
  {
    var i := IndexOf(line, '"');
    if i >= 0 {
      var rest := line[i + 1..];
      var j := IndexOf(rest, '"');
      if j >= 0 {
        if HasLineTerminator(rest[..j]) {
          ReplaceQuotedRetry(line, i, j, rest);
        } else {
          ReplaceQuotedSpan(line, i, j);
        }
      }
    }
  }

  /** The step of the lemma above for a span with a line terminator. */
  lemma {:induction false} ReplaceQuotedRetry(line: string, i: nat, j: nat, rest: string)
    requires i == IndexOf(line, '"') && rest == line[i + 1..] && j == IndexOf(rest, '"')
    requires HasLineTerminator(rest[..j])
    ensures Without(ReplaceQuoted(line), ',') == Without(line, ',')
    ensures |ReplaceQuoted(line)| <= |line|
    decreases |line|, 0
  {
    TerminatorStep(line, i, j, rest);
    ReplaceQuotedOnlyRemovesCommas(rest);
    assert line == line[..i + 1] + rest;
    KeptPrefix(line[..i + 1], rest, ReplaceQuoted(rest));
  }

  /** Rewriting what follows a kept prefix only removes commas when the
      rewrite of that part does. */
  lemma KeptPrefix(pre: string, rest: string, out: string)
    requires Without(out, ',') == Without(rest, ',') && |out| <= |rest|
    ensures Without(pre + out, ',') == Without(pre + rest, ',') && |pre + out| <= |pre + rest|
  {
    WithoutConcat(pre, rest, ',');
    WithoutConcat(pre, out, ',');
  }

  /** The step of the lemma above for a span without line terminators. */
  lemma {:induction false} ReplaceQuotedSpan(line: string, i: nat, j: nat)
    requires i == IndexOf(line, '"') && j == IndexOf(line[i + 1..], '"')
    requires !HasLineTerminator(line[i + 1..][..j])
    ensures Without(ReplaceQuoted(line), ',') == Without(line, ',')
    ensures |ReplaceQuoted(line)| <= |line|
    decreases |line|, 0
  {
    var rest := line[i + 1..];
    var span := rest[..j];
    var tail := rest[j + 1..];
    var pre := line[..i];
    var out := RemoveFirstComma(span);
    SpanStep(line, i, j, span, tail);
    ReplaceQuotedOnlyRemovesCommas(tail);
    RemoveFirstCommaOnlyComma(span);
    QuotedParts(line, i, j);
    WithoutQuoted(pre, span, tail, ',');
    WithoutQuoted(pre, out, ReplaceQuoted(tail), ',');
  }

  /** One step of the rewriting, for a span without line terminators. */
  lemma SpanStep(line: string, i: nat, j: nat, span: string, tail: string)
    requires i == IndexOf(line, '"') && j == IndexOf(line[i + 1..], '"')
    requires span == line[i + 1..][..j] && tail == line[i + 1..][j + 1..]
    requires !HasLineTerminator(span)
    ensures ReplaceQuoted(line) == line[..i] + "\"" + RemoveFirstComma(span) + "\"" + ReplaceQuoted(tail)
  {
  }

  /** One step of the rewriting, for a span with a line terminator. */
  lemma TerminatorStep(line: string, i: nat, j: nat, rest: string)
    requires i == IndexOf(line, '"') && rest == line[i + 1..] && j == IndexOf(rest, '"')
    requires HasLineTerminator(rest[..j])
    ensures ReplaceQuoted(line) == line[..i + 1] + ReplaceQuoted(rest)
  {
  }

  /** A line cut at two quotes is the part before, the quoted span and the
      part after. */
  lemma QuotedParts(line: string, i: nat, j: nat)
    requires i < |line| && line[i] == '"'
    requires j < |line[i + 1..]| && line[i + 1..][j] == '"'
    ensures line == line[..i] + "\"" + line[i + 1..][..j] + "\"" + line[i + 1..][j + 1..]
  {
    var rest := line[i + 1..];
    assert rest == rest[..j] + "\"" + rest[j + 1..];
    assert line == line[..i] + [line[i]] + rest;
  }

  /** A line without quotes is left as it is. */
  lemma ReplaceQuotedNoQuotes(line: string)
    requires '"' !in line
    ensures ReplaceQuoted(line) == line
  {
  }

  /** A line with a single quoted span, free of line terminators, loses the
      span's first comma and nothing else. */
  lemma ReplaceQuotedOneSpan(pre: string, span: string, post: string)
    requires '"' !in pre && '"' !in span && '"' !in post
    requires !HasLineTerminator(span)
    ensures ReplaceQuoted(pre + "\"" + span + "\"" + post)
         == pre + "\"" + RemoveFirstComma(span) + "\"" + post
  {
    var line := pre + "\"" + span + "\"" + post;
    var rest := span + "\"" + post;
    assert line == pre + "\"" + rest;
    FirstQuote(pre, rest);
    FirstQuote(span, post);
    SpanStep(line, |pre|, |span|, span, post);
    ReplaceQuotedNoQuotes(post);
  }

  /** The first quote of a text whose part before it has none. */
  lemma FirstQuote(a: string, b: string)
    requires '"' !in a
    ensures IndexOf(a + "\"" + b, '"') == |a|
    ensures (a + "\"" + b)[|a| + 1..] == b && (a + "\"" + b)[|a| + 1..][..0] == ""
    ensures (a + "\"" + b)[..|a|] == a
  {
    var s := a + "\"" + b;
    var r := IndexOf(s, '"');
    assert s[|a|] == '"';
    assert s[..|a|] == a;
    assert forall k :: 0 <= k < |a| ==> s[k] != '"';
  }

  /** The lines of the CSV text after the quoted spans are rewritten. */
  function Lines(csv: string): (ls: seq<string>)
    ensures |ls| == |Split(csv, '\n')| && |ls| >= 1
  {
    RewriteLines(Split(csv, '\n'))
  }

  /** Each line with its quoted spans rewritten. */
  function RewriteLines(raw: seq<string>): (ls: seq<string>)
    ensures |ls| == |raw|
  {
    seq(|raw|, k requires 0 <= k < |raw| => ReplaceQuoted(raw[k]))
  }

  lemma RewriteLinesSnoc(raw: seq<string>, line: string)
    ensures RewriteLines(raw + [line]) == RewriteLines(raw) + [ReplaceQuoted(line)]
  {
    assert forall k :: 0 <= k < |raw| ==> RewriteLines(raw + [line])[k] == RewriteLines(raw)[k];
  }

  /** `header.indexOf(email_column)`, -1 when no header field is the column. */
  function ColumnIndex(header: string, column: string): int
  {
    IndexOf(Split(header, ','), column)
  }

  /** `line.split(",")[index]` followed by `+ suffix` as written: a missing
      cell (a short row, or index -1) is `undefined`, which becomes the text
      "undefined". */
  function CellAsWritten(line: string, index: int): string
  {
    var fields := Split(line, ',');
    if 0 <= index < |fields| then fields[index] else "undefined"
  }

  /** The cell with a missing one read as empty. */
  function Cell(line: string, index: int): string
  {
    var fields := Split(line, ',');
    if 0 <= index < |fields| then fields[index] else ""
  }

  /** `.filter((email) => email.length > n)`. */
  function KeepLonger(xs: seq<string>, n: nat): (r: seq<string>)
    ensures |r| <= |xs|
    ensures forall e :: e in r <==> e in xs && |e| > n
  {
    if |xs| == 0 then []
    else
      var init := KeepLonger(xs[..|xs| - 1], n);
      var x := xs[|xs| - 1];
      assert xs == xs[..|xs| - 1] + [x];
      if |x| > n then init + [x] else init
  }

  /** `a` is `b` with some entries dropped, the rest in order. */
  predicate IsSubsequence(a: seq<string>, b: seq<string>)
    decreases |b|
  {
    || |a| == 0
    || (&& |b| > 0
        && (|| (a[|a| - 1] == b[|b| - 1] && IsSubsequence(a[..|a| - 1], b[..|b| - 1]))
            || IsSubsequence(a, b[..|b| - 1])))
  }

  /** Filtering keeps the order of what it keeps. */
  lemma {:induction false} KeepLongerInOrder(xs: seq<string>, n: nat)
    ensures IsSubsequence(KeepLonger(xs, n), xs)
  {
    if |xs| > 0 {
      var init := xs[..|xs| - 1];
      KeepLongerInOrder(init, n);
      var r := KeepLonger(xs, n);
      if |xs[|xs| - 1]| > n {
        assert r[..|r| - 1] == KeepLonger(init, n);
      }
    }
  }

  /** Each data line's cell followed by the suffix, before filtering. */
  function Candidates(ls: seq<string>, index: int, suffix: string, asWritten: bool): (c: seq<string>)
    requires |ls| >= 1
    ensures |c| == |ls| - 1
  {
    seq(|ls| - 1, k requires 0 <= k < |ls| - 1 =>
      (if asWritten then CellAsWritten(ls[k + 1], index) else Cell(ls[k + 1], index)) + suffix)
  }

  /** `emails_from_csv` as written. */
  function EmailsFromCsvAsWritten(csv: string, column: string, suffix: string): seq<string>
  {
    var ls := Lines(csv);
    KeepLonger(Candidates(ls, ColumnIndex(ls[0], column), suffix, true), |suffix|)
  }

  /** `emails_from_csv` with a missing cell read as empty, so that it is
      dropped like an empty one. */
  function EmailsFromCsv(csv: string, column: string, suffix: string): seq<string>
  {
    var ls := Lines(csv);
    KeepLonger(Candidates(ls, ColumnIndex(ls[0], column), suffix, false), |suffix|)
  }

  /** At most one email per data line, in line order. */
  lemma EmailsFromCsvInOrder(csv: string, column: string, suffix: string)
    ensures var ls := Lines(csv);
      var r := EmailsFromCsv(csv, column, suffix);
      && |r| <= |ls| - 1
      && IsSubsequence(r, Candidates(ls, ColumnIndex(ls[0], column), suffix, false))
  {
    var ls := Lines(csv);
    KeepLongerInOrder(Candidates(ls, ColumnIndex(ls[0], column), suffix, false), |suffix|);
  }

  /** Every email is a non-empty cell of a data line in the email column
      followed by the suffix, so the header line never yields one. */
  lemma EmailsFromCsvCells(csv: string, column: string, suffix: string, e: string)
    requires e in EmailsFromCsv(csv, column, suffix)
    ensures |e| > |suffix| && e[|e| - |suffix|..] == suffix
    ensures var ls := Lines(csv);
      exists k :: 1 <= k < |ls| && e == Cell(ls[k], ColumnIndex(ls[0], column)) + suffix
                   && Cell(ls[k], ColumnIndex(ls[0], column)) != ""
  {
    var ls := Lines(csv);
    KeptCell(ls, ColumnIndex(ls[0], column), suffix, e, false);
  }

  /** As written, too, at most one email per data line, in line order. */
  lemma EmailsFromCsvAsWrittenInOrder(csv: string, column: string, suffix: string)
    ensures var ls := Lines(csv);
      var r := EmailsFromCsvAsWritten(csv, column, suffix);
      && |r| <= |ls| - 1
      && IsSubsequence(r, Candidates(ls, ColumnIndex(ls[0], column), suffix, true))
  {
    var ls := Lines(csv);
    KeepLongerInOrder(Candidates(ls, ColumnIndex(ls[0], column), suffix, true), |suffix|);
  }

  /** As written, every email is a data line's cell in the email column, or
      "undefined" when that cell is missing, followed by the suffix; the
      text before the suffix is never empty. */
  lemma EmailsFromCsvAsWrittenCells(csv: string, column: string, suffix: string, e: string)
    requires e in EmailsFromCsvAsWritten(csv, column, suffix)
    ensures |e| > |suffix| && e[|e| - |suffix|..] == suffix
    ensures var ls := Lines(csv);
      exists k :: 1 <= k < |ls| && e == CellAsWritten(ls[k], ColumnIndex(ls[0], column)) + suffix
                   && CellAsWritten(ls[k], ColumnIndex(ls[0], column)) != ""
  {
    var ls := Lines(csv);
    KeptCell(ls, ColumnIndex(ls[0], column), suffix, e, true);
  }

  /** The cell a candidate is read from, as written or corrected. */
  function ReadCell(line: string, index: int, asWritten: bool): string
  {
    if asWritten then CellAsWritten(line, index) else Cell(line, index)
  }

  lemma CandidateAt(ls: seq<string>, index: int, suffix: string, k: nat, asWritten: bool)
    requires k < |ls| - 1
    ensures Candidates(ls, index, suffix, asWritten)[k] == ReadCell(ls[k + 1], index, asWritten) + suffix
  {
  }

  lemma KeptCell(ls: seq<string>, index: int, suffix: string, e: string, asWritten: bool)
    requires |ls| >= 1 && e in KeepLonger(Candidates(ls, index, suffix, asWritten), |suffix|)
    ensures |e| > |suffix| && e[|e| - |suffix|..] == suffix
    ensures exists k :: 1 <= k < |ls| && e == ReadCell(ls[k], index, asWritten) + suffix
                        && ReadCell(ls[k], index, asWritten) != ""
  {
    var i := KeptEntry(Candidates(ls, index, suffix, asWritten), |suffix|, e);
    CandidateAt(ls, index, suffix, i, asWritten);
    var cell := ReadCell(ls[i + 1], index, asWritten);
    SuffixAfter(cell, suffix);
    assert 1 <= i + 1 < |ls| && e == cell + suffix;
  }

  /** Where a kept entry comes from. */
  lemma KeptEntry(xs: seq<string>, n: nat, e: string) returns (i: nat)
    requires e in KeepLonger(xs, n)
    ensures i < |xs| && xs[i] == e && |e| > n
  {
    i :| 0 <= i < |xs| && xs[i] == e;
  }

  lemma SuffixAfter(s: string, suffix: string)
    ensures (s + suffix)[|s|..] == suffix
  {
  }

  /** Filtering drops a list whose entries are all too short. */
  lemma {:induction false} KeepNoneLonger(xs: seq<string>, n: nat)
    requires forall k :: 0 <= k < |xs| ==> |xs[k]| <= n
    ensures KeepLonger(xs, n) == []
  {
    if |xs| > 0 {
      KeepNoneLonger(xs[..|xs| - 1], n);
    }
  }

  /** Filtering keeps a list whose entries are all long enough. */
  lemma {:induction false} KeepAllLonger(xs: seq<string>, n: nat)
    requires forall k :: 0 <= k < |xs| ==> |xs[k]| > n
    ensures KeepLonger(xs, n) == xs
  {
    if |xs| > 0 {
      KeepAllLonger(xs[..|xs| - 1], n);
      assert xs == xs[..|xs| - 1] + [xs[|xs| - 1]];
    }
  }

  /** Without the email column in the header no email is found. */
  lemma MissingColumnFindsNothing(csv: string, column: string, suffix: string)
    requires ColumnIndex(Lines(csv)[0], column) < 0
    ensures EmailsFromCsv(csv, column, suffix) == []
  {
    var ls := Lines(csv);
    MissingIndexFindsNothing(ls, ColumnIndex(ls[0], column), suffix);
  }

  lemma MissingIndexFindsNothing(ls: seq<string>, index: int, suffix: string)
    requires |ls| >= 1 && index < 0
    ensures KeepLonger(Candidates(ls, index, suffix, false), |suffix|) == []
  {
    var cands := Candidates(ls, index, suffix, false);
    assert forall k :: 0 <= k < |cands| ==> cands[k] == suffix;
    KeepNoneLonger(cands, |suffix|);
  }

  /** As written, a header without the email column still yields one
      "undefined" email per data line, so the missing column is never
      reported. */
  lemma MissingColumnAsWritten(csv: string, column: string, suffix: string)
    requires ColumnIndex(Lines(csv)[0], column) < 0
    ensures var r := EmailsFromCsvAsWritten(csv, column, suffix);
      |r| == |Lines(csv)| - 1 && forall e :: e in r ==> e == "undefined" + suffix
  {
    var ls := Lines(csv);
    MissingIndexAsWritten(ls, ColumnIndex(ls[0], column), suffix);
  }

  lemma MissingIndexAsWritten(ls: seq<string>, index: int, suffix: string)
    requires |ls| >= 1 && index < 0
    ensures var r := KeepLonger(Candidates(ls, index, suffix, true), |suffix|);
      |r| == |ls| - 1 && forall e :: e in r ==> e == "undefined" + suffix
  {
    var cands := Candidates(ls, index, suffix, true);
    assert forall k :: 0 <= k < |cands| ==> cands[k] == "undefined" + suffix;
    KeepAllLonger(cands, |suffix|);
  }

  lemma SplitAppendSeparator(s: string)
    ensures Split(s + "\n", '\n') == Split(s, '\n') + [""]
  {
    var t := s + "\n";
    assert t[..|t| - 1] == s;
  }

  /** A final line break adds one empty line and changes none of the others. */
  lemma LinesAppendNewline(csv: string)
    ensures Lines(csv + "\n") == Lines(csv) + [""]
  {
    SplitAppendSeparator(csv);
    RewriteLinesSnoc(Split(csv, '\n'), "");
    ReplaceQuotedNoQuotes("");
  }

  /** One more line adds the candidate read from it and changes none of the
      others. */
  lemma CandidatesSnoc(ls: seq<string>, line: string, index: int, suffix: string, asWritten: bool)
    requires |ls| >= 1
    ensures Candidates(ls + [line], index, suffix, asWritten)
         == Candidates(ls, index, suffix, asWritten)
            + [(if asWritten then CellAsWritten(line, index) else Cell(line, index)) + suffix]
  {
    var c := Candidates(ls, index, suffix, asWritten);
    var c' := Candidates(ls + [line], index, suffix, asWritten);
    assert forall k :: 0 <= k < |c| ==> c'[k] == c[k];
  }

  /** As written, ending the file with a line break (an empty last line)
      adds an "undefined" email whenever the email column is not the first
      one, since the empty line has a single field. */
  lemma TrailingNewlineAsWritten(csv: string, column: string, suffix: string)
    requires ColumnIndex(Lines(csv)[0], column) >= 1
    ensures EmailsFromCsvAsWritten(csv + "\n", column, suffix)
         == EmailsFromCsvAsWritten(csv, column, suffix) + ["undefined" + suffix]
  {
    var ls := Lines(csv);
    LinesAppendNewline(csv);
    assert (ls + [""])[0] == ls[0];
    var index := ColumnIndex(ls[0], column);
    assert Split("", ',') == [""];
    CandidatesSnoc(ls, "", index, suffix, true);
    var c := Candidates(ls, index, suffix, true);
    assert (c + ["undefined" + suffix])[..|c|] == c;
  }

  /** With the same file the corrected reading is unaffected by the final
      line break. */
  lemma TrailingNewline(csv: string, column: string, suffix: string)
    ensures EmailsFromCsv(csv + "\n", column, suffix) == EmailsFromCsv(csv, column, suffix)
  {
    var ls := Lines(csv);
    LinesAppendNewline(csv);
    assert (ls + [""])[0] == ls[0];
    var index := ColumnIndex(ls[0], column);
    assert Split("", ',') == [""];
    CandidatesSnoc(ls, "", index, suffix, false);
    var c := Candidates(ls, index, suffix, false);
    assert (c + [suffix])[..|c|] == c;
  }

  /** What the form handler does with the emails: alert and stop when there
      are none, otherwise post them. */
  datatype FormAction = AlertNoEmails | PostEmails(emails: seq<string>)

  function OnCsvLoaded(emails: seq<string>): (a: FormAction)
    ensures a == AlertNoEmails <==> |emails| == 0
    ensures a.PostEmails? ==> a.emails == emails
  {
    if |emails| == 0 then AlertNoEmails else PostEmails(emails)
  }

  /** The alert about a missing email column is shown, with the corrected
      reading, for every file lacking that column; as written it is shown
      only for a file with no data line at all. */
  lemma MissingColumnAlerts(csv: string, column: string, suffix: string)
    requires ColumnIndex(Lines(csv)[0], column) < 0
    ensures OnCsvLoaded(EmailsFromCsv(csv, column, suffix)) == AlertNoEmails
    ensures OnCsvLoaded(EmailsFromCsvAsWritten(csv, column, suffix)) == AlertNoEmails <==> |Lines(csv)| == 1
  {
    MissingColumnFindsNothing(csv, column, suffix);
    MissingColumnAsWritten(csv, column, suffix);
  }
}
