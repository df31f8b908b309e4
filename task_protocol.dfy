/**
 * The data-channel messages of the Java pair read against each other: what
 * the controller writes (BenchmarkController.java) is what the baseline
 * system (BaselineSystem.java) reads, and the other way round for answers.
 */
module TaskProtocol {
  import opened Wrappers
  import opened Text
  import opened JavaController
  import opened JavaSystem

  // ---------------------------------------------------------------- tasks

  /** The first `c` at or after `from` is at `p` when `p` holds one and nothing before does. */
  lemma IndexOfIs(s: string, c: char, from: nat, p: nat)
    requires from <= p < |s| && s[p] == c
    requires forall j :: from <= j < p ==> s[j] != c
    ensures IndexOf(s, c, from) == p
  {
    var r := IndexOf(s, c, from);
    assert r != -1 by { assert s[p] == c; }
  }

  /** A message cut as `a`, a line break, `d`, a `;` and `p` is split into `d` and `p`. */
  lemma ExtractTaskOf(a: string, d: string, p: string)
    requires '\n' !in a && ';' !in d
    ensures ExtractTask(a + ("\n" + (d + (";" + p)))) == (Some(d), p)
  {
    var m := a + ("\n" + (d + (";" + p)));
    var s := |a|;
    var e := |a| + 1 + |d|;
    assert m[s] == '\n';
    assert forall j :: 0 <= j < s ==> m[j] != '\n' by {
      forall j | 0 <= j < s ensures m[j] != '\n' { assert m[j] == a[j]; }
    }
    IndexOfIs(m, '\n', 0, s);
    assert m[e] == ';';
    assert forall j :: s <= j < e ==> m[j] != ';' by {
      forall j | s <= j < e ensures m[j] != ';' {
        if j > s { assert m[j] == d[j - s - 1]; }
      }
    }
    IndexOfIs(m, ';', s, e);
    assert m[s + 1..e] == d;
    assert m[e + 1..] == p;
  }

  /**
   * A task sent by the controller, for a header without a line break, is
   * split by the system into the decimal task id and the row without its
   * last field.
   */
  lemma TaskRoundTrip(header: string, id: nat, row: string)
    requires '\n' !in header && ';' in row
    ensures ExtractTask(TaskMessage(header, id, row)) == (Some(Decimal(id)), row[..LastIndexOf(row, ';')])
  {
    var prefix := row[..LastIndexOf(row, ';')];
    var d := Decimal(id);
    DecimalHasOnlyDigits(id, ';');
    assert TaskMessage(header, id, row) == (";" + header) + ("\n" + (d + (";" + prefix)));
    ExtractTaskOf(";" + header, d, prefix);
  }

  // ---------------------------------------------------------------- answers

  /** Decimal text holds no character that is not a digit. */
  lemma DecimalHasOnlyDigits(n: nat, c: char)
    requires !IsDigit(c)
    ensures c !in Decimal(n)
  {
    var d := Decimal(n);
    assert forall k :: 0 <= k < |d| ==> d[k] != c;
  }

  /**
   * An answer to task `id` is stored under `id` with the value the system
   * formatted, provided the double formatting has no `;`, is not empty and
   * parses back.
   */
  lemma AnswerRoundTrip(id: nat, value: real, formatDouble: real -> string, parseDouble: string -> Option<real>)
    requires id <= INT_MAX
    requires ';' !in formatDouble(value) && formatDouble(value) != []
    requires parseDouble(formatDouble(value)) == Some(value)
    ensures ParseAnswer(AnswerMessage(Some(Decimal(id)), value, formatDouble), parseDouble) == Some((id, value))
  {
    var parts := [Decimal(id), formatDouble(value)];
    DecimalHasOnlyDigits(id, ';');
    assert Join(parts, ';') == AnswerMessage(Some(Decimal(id)), value, formatDouble) by {
      assert parts[1..] == [formatDouble(value)];
    }
    JavaSplitJoin(parts, ';');
    ParseIntDecimal(id);
  }

  /** Task sent, answered by the system, and the answer stored under the same id. */
  lemma TaskAnswerRoundTrip(header: string, id: nat, row: string, value: real,
                            formatDouble: real -> string, parseDouble: string -> Option<real>)
    requires '\n' !in header && ';' in row && id <= INT_MAX
    requires ';' !in formatDouble(value) && formatDouble(value) != []
    requires parseDouble(formatDouble(value)) == Some(value)
    ensures var (taskId, _) := ExtractTask(TaskMessage(header, id, row));
            ParseAnswer(AnswerMessage(taskId, value, formatDouble), parseDouble) == Some((id, value))
  {
    TaskRoundTrip(header, id, row);
    AnswerRoundTrip(id, value, formatDouble, parseDouble);
  }

  /** An answer the system sends with a null id never reaches the controller's maps. */
  lemma NullIdAnswerDropped(value: real, formatDouble: real -> string, parseDouble: string -> Option<real>)
    ensures ParseAnswer(AnswerMessage(None, value, formatDouble), parseDouble).None?
  {
    var a := AnswerMessage(None, value, formatDouble);
    assert a[4] == ';' && a[..4] == "null";
    IndexOfIs(a, ';', 0, 4);
    var all := SplitAll(a, ';');
    assert all[0] == "null";
    var parts := JavaSplit(a, ';');
    assert parts == DropTrailingEmpty(all);
    if |parts| > 1 {
      assert parts[0] == "null";
      assert !IsDigit('n');
    }
  }

  // ---------------------------------------------------------------- training

  /** The numbered lines of the training message after its first. */
  function TrainingLines(rows: seq<string>): (r: seq<string>)
    ensures |r| == |rows|
    ensures forall i :: 0 <= i < |rows| ==> r[i] == Decimal(i) + ";" + rows[i]
  {
    if rows == [] then []
    else
      var n := |rows| - 1;
      assert forall i :: 0 <= i < n ==> rows[..n][i] == rows[i];
      TrainingLines(rows[..n]) + [Decimal(n) + ";" + rows[n]]
  }

  lemma {:induction false} JoinSnoc(ps: seq<string>, x: string, c: char)
    requires |ps| >= 1
    ensures Join(ps + [x], c) == Join(ps, c) + [c] + x
    decreases |ps|
  {
    if |ps| == 1 {
      assert (ps + [x])[1..] == [x];
    } else {
      assert (ps + [x])[1..] == ps[1..] + [x];
      JoinSnoc(ps[1..], x, c);
    }
  }

  /** A first line followed by the numbered rows is that line and the numbered lines, joined by line breaks. */
  lemma {:induction false} TrainingRowsJoin(first: string, rows: seq<string>)
    ensures first + TrainingRows(rows) == Join([first] + TrainingLines(rows), '\n')
  {
    if rows == [] {
      assert [first] + TrainingLines(rows) == [first];
      assert first + TrainingRows(rows) == first;
    } else {
      var n := |rows| - 1;
      var init := rows[..n];
      var last := Decimal(n) + ";" + rows[n];
      var ps := [first] + TrainingLines(init);
      calc {
        first + TrainingRows(rows);
        { assert TrainingRows(rows) == TrainingRows(init) + "\n" + last; }
        (first + TrainingRows(init)) + "\n" + last;
        { TrainingRowsJoin(first, init); }
        Join(ps, '\n') + "\n" + last;
        { JoinSnoc(ps, last, '\n'); }
        Join(ps + [last], '\n');
        { assert [first] + TrainingLines(rows) == ps + [last]; }
        Join([first] + TrainingLines(rows), '\n');
      }
    }
  }

  /** The training message is its header line and its numbered lines, joined by line breaks. */
  lemma TrainingMessageJoin(header: string, rows: seq<string>)
    ensures TrainingMessage(header, rows) == Join([header + ";" + header] + TrainingLines(rows), '\n')
  {
    TrainingRowsJoin(header + ";" + header, rows);
  }

  /** A position holding `c` with no `c` after it is the `lastIndexOf` result. */
  lemma {:induction false} LastIndexOfIs(s: string, c: char, q: nat)
    requires q < |s| && s[q] == c && c !in s[q + 1..]
    ensures LastIndexOf(s, c) == q
    decreases |s|
  {
    if q < |s| - 1 {
      var t := s[..|s| - 1];
      assert s[q + 1..][|s| - 2 - q] == s[|s| - 1];
      assert t[q + 1..] == s[q + 1..][..|s| - 2 - q];
      LastIndexOfIs(t, c, q);
    }
  }

  lemma LastIndexOfAppend(a: string, b: string, c: char)
    requires c in b
    ensures LastIndexOf(a + b, c) == |a| + LastIndexOf(b, c)
  {
    var l := LastIndexOf(b, c);
    var q := |a| + l;
    assert q < |a + b| && (a + b)[q] == c && c !in (a + b)[q + 1..] by {
      assert l >= 0 && b[l] == c && c !in b[l + 1..];
      assert (a + b)[q + 1..] == b[l + 1..];
    }
    LastIndexOfIs(a + b, c, q);
  }

  /**
   * What a training row yields once numbered: the double after its last `;`
   * when it has one, otherwise the whole row, since the `;` after the id is
   * then the last one on the line.
   */
  function RowTarget(row: string, parseDouble: string -> Option<real>): Option<real>
  {
    if ';' in row then LineValue(row, parseDouble) else parseDouble(row)
  }

  /** The targets of the rows that have one, in order. */
  function RowTargets(rows: seq<string>, parseDouble: string -> Option<real>): (r: seq<real>)
    ensures |r| <= |rows|
  {
    if rows == [] then []
    else
      var init := RowTargets(rows[..|rows| - 1], parseDouble);
      match RowTarget(rows[|rows| - 1], parseDouble)
      case Some(v) => init + [v]
      case None => init
  }

  /**
   * A numbered line contributes its row's target. When the row has a `;` of
   * its own that is what the row alone would contribute; when it has none,
   * the whole row is parsed (row "5" is learned as 5.0).
   */
  lemma NumberedLineValue(i: nat, row: string, parseDouble: string -> Option<real>)
    ensures LineValue(Decimal(i) + ";" + row, parseDouble) == RowTarget(row, parseDouble)
    ensures ';' in row ==> LineValue(Decimal(i) + ";" + row, parseDouble) == LineValue(row, parseDouble)
    ensures ';' !in row ==> LineValue(Decimal(i) + ";" + row, parseDouble) == parseDouble(row)
  {
    var a := Decimal(i) + ";";
    assert a + row == Decimal(i) + ";" + row;
    if ';' in row {
      LastIndexOfAppend(a, row, ';');
      assert (a + row)[|a| + LastIndexOf(row, ';') + 1..] == row[LastIndexOf(row, ';') + 1..];
    } else {
      assert (a + row)[|a|..] == row;
      LastIndexOfIs(a + row, ';', |a| - 1);
    }
  }

  /** Rows that all have a `;` have as targets exactly what they would contribute as lines. */
  lemma {:induction false} RowTargetsAreContributions(rows: seq<string>, parseDouble: string -> Option<real>)
    requires forall k :: 0 <= k < |rows| ==> ';' in rows[k]
    ensures RowTargets(rows, parseDouble) == Contributions(rows, parseDouble)
  {
    if rows != [] {
      RowTargetsAreContributions(rows[..|rows| - 1], parseDouble);
    }
  }

  lemma {:induction false} TrainingContributions(rows: seq<string>, parseDouble: string -> Option<real>)
    ensures Contributions(TrainingLines(rows), parseDouble) == RowTargets(rows, parseDouble)
    ensures (forall k :: 0 <= k < |rows| ==> ';' in rows[k]) ==>
            Contributions(TrainingLines(rows), parseDouble) == Contributions(rows, parseDouble)
  {
    if rows != [] {
      var n := |rows| - 1;
      TrainingContributions(rows[..n], parseDouble);
      assert TrainingLines(rows)[..n] == TrainingLines(rows[..n]);
      NumberedLineValue(n, rows[n], parseDouble);
    }
    if forall k :: 0 <= k < |rows| ==> ';' in rows[k] {
      RowTargetsAreContributions(rows, parseDouble);
    }
  }

  /**
   * The system learns from the training message exactly the targets of the
   * rows the controller put into it: the repeated header is line 0, which it
   * skips, and every numbered line contributes its row's target.
   */
  lemma TrainingRoundTrip(header: string, rows: seq<string>, parseDouble: string -> Option<real>)
    requires |rows| >= 1 && '\n' !in header
    requires forall k :: 0 <= k < |rows| ==> '\n' !in rows[k]
    ensures var lines := JavaSplit(TrainingMessage(header, rows), '\n');
            |lines| == |rows| + 1 && lines[0] == header + ";" + header &&
            Contributions(lines[1..], parseDouble) == RowTargets(rows, parseDouble)
    ensures (forall k :: 0 <= k < |rows| ==> ';' in rows[k]) ==>
            Contributions(JavaSplit(TrainingMessage(header, rows), '\n')[1..], parseDouble) == Contributions(rows, parseDouble)
  {
    var ps := [header + ";" + header] + TrainingLines(rows);
    TrainingMessageJoin(header, rows);
    forall k | 0 <= k < |ps| ensures '\n' !in ps[k] {
      if k > 0 {
        var d := Decimal(k - 1);
        assert ps[k] == d + ";" + rows[k - 1];
        DecimalHasOnlyDigits(k - 1, '\n');
      }
    }
    JavaSplitJoin(ps, '\n');
    assert ps[1..] == TrainingLines(rows);
    TrainingContributions(rows, parseDouble);
  }
}
