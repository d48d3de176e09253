/** The results table of the federated clients (`save_client_result` in
    fedpopper/client2.py and fedpopper/client3.py): one row per (client id,
    dataset), the whole file rewritten on every save. Opening, reading and
    writing the file are modelled as values: a file is its header and its rows
    as `csv.DictReader` hands them over, and writing produces such a value. */
module ResultTable {
  import opened Wrappers
  import opened Strings
  import opened Core
  import opened Outcomes
  import opened RuleText

  // ---------------------------------------------------------------------------
  // Rows and files
  // ---------------------------------------------------------------------------

  /** A value in a row: text, an integer count, a floating-point metric whose
      value the model does not compute, or `None`. */
  datatype Cell = Text(text: string) | Count(count: int) | Metric | Null

  type Row = map<string, Cell>

  /** What the results file holds: no file, a file the csv module fails to
      read, or a header (`None` for an empty file) and its rows. */
  datatype CsvFile = Missing | Unreadable | Table(fieldnames: Option<seq<string>>, rows: seq<Row>)

  function FieldSet(fields: seq<string>): (r: set<string>)
    ensures forall k :: k in r <==> k in fields
  {
    set k | k in fields
  }

  /** Rows as `csv.DictReader` builds them: each has exactly the header's
      fields, a short line being padded with `None`. */
  predicate ReaderShaped(f: CsvFile) {
    f.Table? ==>
      && (f.fieldnames.None? ==> f.rows == [])
      && (f.fieldnames.Some? ==> forall i :: 0 <= i < |f.rows| ==> f.rows[i].Keys == FieldSet(f.fieldnames.value))
  }

  /** `CSV_COLUMNS` of fedpopper/client2.py. */
  const Columns2: seq<string> := [
    "timestamp", "client_id", "dataset",
    "final_rule", "tp", "fn", "tn", "fp",
    "accuracy", "precision", "recall", "f1",
    "num_rules", "avg_rule_length"
  ]

  /** `expected_fields` of fedpopper/client3.py. */
  const Expected3: seq<string> := [
    "timestamp", "client_id", "dataset", "final_rule",
    "tp", "fn", "tn", "fp",
    "accuracy", "precision", "recall", "f1"
  ]

  // ---------------------------------------------------------------------------
  // Keeping one row per (client id, dataset)
  // ---------------------------------------------------------------------------

  /** The row belongs to the given client and dataset. */
  predicate HasKey(row: Row, client: string, dataset: string) {
    && "client_id" in row && row["client_id"] == Text(client)
    && "dataset" in row && row["dataset"] == Text(dataset)
  }

  /** `row["client_id"] == client_id and row["dataset"] == dataset_name`: a
      missing field raises, and the dataset is looked up only when the client
      id matches. */
  function SameKey(row: Row, client: string, dataset: string): (r: Result<bool>)
    ensures r.Ok? <==> "client_id" in row && (row["client_id"] == Text(client) ==> "dataset" in row)
    ensures r.Ok? ==> (r.value <==> HasKey(row, client, dataset))
    ensures r.Err? ==> r.error == KeyError
  {
    if "client_id" !in row then Err(KeyError)
    else if row["client_id"] != Text(client) then Ok(false)
    else if "dataset" !in row then Err(KeyError)
    else Ok(row["dataset"] == Text(dataset))
  }

  /** The rows of every other (client id, dataset), in their order; the
      comparison raises on a row that lacks a field it reads. */
  function KeepOthers(rows: seq<Row>, client: string, dataset: string): (r: Result<seq<Row>>)
    ensures r.Ok? <==> forall i :: 0 <= i < |rows| ==> SameKey(rows[i], client, dataset).Ok?
    ensures r.Err? ==> r.error == KeyError
    ensures r.Ok? ==> |r.value| <= |rows|
    decreases |rows|
  {
    if |rows| == 0 then Ok([])
    else
      var same := SameKey(rows[0], client, dataset);
      var rest := KeepOthers(rows[1..], client, dataset);
      assert forall i :: 1 <= i < |rows| ==> rows[i] == rows[1..][i - 1];
      if same.Err? || rest.Err? then Err(KeyError)
      else if same.value then rest
      else Ok([rows[0]] + rest.value)
  }

  /** The rows kept are exactly the rows of other keys. */
  lemma {:induction false} KeepOthersMembers(rows: seq<Row>, client: string, dataset: string)
    requires KeepOthers(rows, client, dataset).Ok?
    ensures forall x :: x in KeepOthers(rows, client, dataset).value <==> x in rows && !HasKey(x, client, dataset)
    decreases |rows|
  {
    if |rows| > 0 {
      assert rows == [rows[0]] + rows[1..];
      KeepCons(rows[0], rows[1..], client, dataset);
      KeepOthersMembers(rows[1..], client, dataset);
    }
  }

  /** The filter works row by row: filtering a concatenation filters each
      part and keeps their order. */
  lemma {:induction false} KeepOthersAppend(a: seq<Row>, b: seq<Row>, client: string, dataset: string)
    requires KeepOthers(a, client, dataset).Ok? && KeepOthers(b, client, dataset).Ok?
    ensures KeepOthers(a + b, client, dataset)
         == Ok(KeepOthers(a, client, dataset).value + KeepOthers(b, client, dataset).value)
    decreases |a|
  {
    if |a| == 0 {
      assert a + b == b;
      assert KeepOthers(a, client, dataset) == Ok([]);
      assert [] + KeepOthers(b, client, dataset).value == KeepOthers(b, client, dataset).value;
    } else {
      var x, rest := a[0], a[1..];
      assert a == [x] + rest && a + b == [x] + (rest + b);
      KeepCons(x, rest, client, dataset);
      KeepOthersAppend(rest, b, client, dataset);
      KeepCons(x, rest + b, client, dataset);
      var ka := KeepOthers(rest, client, dataset).value;
      var kb := KeepOthers(b, client, dataset).value;
      assert [x] + (ka + kb) == ([x] + ka) + kb;
    }
  }

  /** One more row in front is dropped or kept on its own. */
  lemma KeepCons(x: Row, rest: seq<Row>, client: string, dataset: string)
    ensures KeepOthers([x] + rest, client, dataset)
         == if SameKey(x, client, dataset).Err? || KeepOthers(rest, client, dataset).Err? then Err(KeyError)
            else if HasKey(x, client, dataset) then KeepOthers(rest, client, dataset)
            else Ok([x] + KeepOthers(rest, client, dataset).value)
  {
    assert ([x] + rest)[0] == x && ([x] + rest)[1..] == rest;
  }

  /** A single row is dropped exactly when it has the key. */
  lemma KeepOne(row: Row, client: string, dataset: string)
    requires SameKey(row, client, dataset).Ok?
    ensures KeepOthers([row], client, dataset) == Ok(if HasKey(row, client, dataset) then [] else [row])
  {
    assert [row][0] == row && [row][1..] == [];
    assert KeepOthers([row][1..], client, dataset) == Ok([]);
    assert [row] + [] == [row];
  }

  /** Filtering twice filters no more than once. */
  lemma {:induction false} KeepOthersIdempotent(rows: seq<Row>, client: string, dataset: string)
    requires KeepOthers(rows, client, dataset).Ok?
    ensures KeepOthers(KeepOthers(rows, client, dataset).value, client, dataset) == KeepOthers(rows, client, dataset)
    decreases |rows|
  {
    if |rows| > 0 {
      assert forall i :: 1 <= i < |rows| ==> rows[i] == rows[1..][i - 1];
      KeepOthersIdempotent(rows[1..], client, dataset);
      var rest := KeepOthers(rows[1..], client, dataset).value;
      if !HasKey(rows[0], client, dataset) {
        KeepOne(rows[0], client, dataset);
        KeepOthersAppend([rows[0]], rest, client, dataset);
      }
    }
  }

  /** Drop this key's rows and append the new one (STEP 1 and STEP 2 of
      `save_client_result`). */
  function Upsert(rows: seq<Row>, newRow: Row, client: string, dataset: string): (r: Result<seq<Row>>)
    ensures r.Ok? <==> KeepOthers(rows, client, dataset).Ok?
    ensures r.Err? ==> r.error == KeyError
    ensures r.Ok? ==> |r.value| >= 1 && r.value[|r.value| - 1] == newRow
    ensures r.Ok? ==> forall i :: 0 <= i < |r.value| - 1 ==> r.value[i] in rows && !HasKey(r.value[i], client, dataset)
    ensures r.Ok? ==> forall x :: x in rows && !HasKey(x, client, dataset) ==> x in r.value[..|r.value| - 1]
  {
    var kept :- KeepOthers(rows, client, dataset);
    KeepOthersMembers(rows, client, dataset);
    assert (kept + [newRow])[..|kept|] == kept;
    Ok(kept + [newRow])
  }

  /** Saving the same key twice leaves only the second row: the first
      save's row is replaced, and every other row is as after one save. */
  lemma UpsertTwice(rows: seq<Row>, first: Row, second: Row, client: string, dataset: string)
    requires HasKey(first, client, dataset)
    requires Upsert(rows, first, client, dataset).Ok?
    ensures Upsert(Upsert(rows, first, client, dataset).value, second, client, dataset)
         == Upsert(rows, second, client, dataset)
  {
    var kept := KeepOthers(rows, client, dataset).value;
    KeepOne(first, client, dataset);
    KeepOthersIdempotent(rows, client, dataset);
    KeepOthersAppend(kept, [first], client, dataset);
    assert kept + [] == kept;
  }

  /** The (client id, dataset) a row is filed under, when it has both. */
  function KeyOf(row: Row): Option<(Cell, Cell)> {
    if "client_id" in row && "dataset" in row then Some((row["client_id"], row["dataset"])) else None
  }

  /** No two rows share a (client id, dataset). */
  predicate UniqueKeys(rows: seq<Row>) {
    forall i, j :: 0 <= i < j < |rows| && KeyOf(rows[i]).Some? ==> KeyOf(rows[i]) != KeyOf(rows[j])
  }

  /** Filtering keeps keys unique. */
  lemma {:induction false} KeepOthersUnique(rows: seq<Row>, client: string, dataset: string)
    requires UniqueKeys(rows) && KeepOthers(rows, client, dataset).Ok?
    ensures UniqueKeys(KeepOthers(rows, client, dataset).value)
    decreases |rows|
  {
    if |rows| > 0 {
      assert forall i :: 1 <= i < |rows| ==> rows[i] == rows[1..][i - 1];
      KeepOthersUnique(rows[1..], client, dataset);
      KeepOthersMembers(rows[1..], client, dataset);
      var rest := KeepOthers(rows[1..], client, dataset).value;
      if !HasKey(rows[0], client, dataset) {
        var r := [rows[0]] + rest;
        forall i, j | 0 <= i < j < |r| && KeyOf(r[i]).Some? ensures KeyOf(r[i]) != KeyOf(r[j]) {
          if i == 0 {
            assert r[j] == rest[j - 1];
            assert rest[j - 1] in rows[1..];
            var k :| 0 <= k < |rows[1..]| && rows[1..][k] == rest[j - 1];
            assert rows[k + 1] == r[j];
          } else {
            assert r[i] == rest[i - 1] && r[j] == rest[j - 1];
          }
        }
      }
    }
  }

  /** A table whose keys are unique keeps them unique through a save. */
  lemma UpsertKeepsKeysUnique(rows: seq<Row>, newRow: Row, client: string, dataset: string)
    requires UniqueKeys(rows) && HasKey(newRow, client, dataset)
    requires Upsert(rows, newRow, client, dataset).Ok?
    ensures UniqueKeys(Upsert(rows, newRow, client, dataset).value)
  {
    KeepOthersUnique(rows, client, dataset);
    KeepOthersMembers(rows, client, dataset);
    var kept := KeepOthers(rows, client, dataset).value;
    var r := kept + [newRow];
    forall i, j | 0 <= i < j < |r| && KeyOf(r[i]).Some? ensures KeyOf(r[i]) != KeyOf(r[j]) {
      if j == |r| - 1 {
        assert r[i] == kept[i];
        assert !HasKey(kept[i], client, dataset);
      } else {
        assert r[i] == kept[i] && r[j] == kept[j];
      }
    }
  }

  // ---------------------------------------------------------------------------
  // Writing
  // ---------------------------------------------------------------------------

  /** A row as `csv.DictWriter` writes it: the header's fields, a missing one
      written empty. */
  function Completed(row: Row, fields: seq<string>): (r: Row)
    ensures r.Keys == FieldSet(fields)
    ensures forall k :: k in r ==> r[k] == (if k in row then row[k] else Text(""))
  {
    map k | k in FieldSet(fields) :: if k in row then row[k] else Text("")
  }

  /** A row that already has exactly the header's fields is written as it
      is. */
  lemma CompletedFull(row: Row, fields: seq<string>)
    requires row.Keys == FieldSet(fields)
    ensures Completed(row, fields) == row
  {
  }

  function CompletedRows(rows: seq<Row>, fields: seq<string>): (r: seq<Row>)
    ensures |r| == |rows| && forall i :: 0 <= i < |rows| ==> r[i] == Completed(rows[i], fields)
  {
    seq(|rows|, i requires 0 <= i < |rows| => Completed(rows[i], fields))
  }

  /** `writer.writeheader()` and `writer.writerows(rows)` (STEP 3): a row with
      a field outside the header raises ValueError; otherwise the file holds
      the header and the completed rows, which a reader hands back. */
  function Write(fields: seq<string>, rows: seq<Row>): (r: Result<CsvFile>)
    ensures r.Ok? <==> forall i :: 0 <= i < |rows| ==> rows[i].Keys <= FieldSet(fields)
    ensures r.Err? ==> r.error == ValueError
    ensures r.Ok? ==> r.value.Table? && r.value.fieldnames == Some(fields) && ReaderShaped(r.value)
    ensures r.Ok? ==> |r.value.rows| == |rows|
    ensures r.Ok? ==> forall i, k :: 0 <= i < |rows| && k in rows[i] ==> k in r.value.rows[i] && r.value.rows[i][k] == rows[i][k]
  {
    if exists i :: 0 <= i < |rows| && !(rows[i].Keys <= FieldSet(fields)) then Err(ValueError)
    else Ok(Table(Some(fields), CompletedRows(rows, fields)))
  }

  /** Rows that already have exactly the header's fields are written
      unchanged. */
  lemma WriteFull(fields: seq<string>, rows: seq<Row>)
    requires forall i :: 0 <= i < |rows| ==> rows[i].Keys == FieldSet(fields)
    ensures Write(fields, rows) == Ok(Table(Some(fields), rows))
  {
    forall i | 0 <= i < |rows| ensures CompletedRows(rows, fields)[i] == rows[i] {
      CompletedFull(rows[i], fields);
    }
    assert CompletedRows(rows, fields) == rows;
    assert forall i :: 0 <= i < |rows| ==> rows[i].Keys <= FieldSet(fields);
  }

  // ---------------------------------------------------------------------------
  // The row for one save
  // ---------------------------------------------------------------------------

  /** `rule_to_str`: `head :- b1, b2.`. A rule without a head has no
      `to_code`, and an argument that is not a string makes `join` fail. */
  function RuleLineOf(c: Clause): (r: Result<string>)
    ensures r.Ok? <==> c.head.Some? && ToCode(c.head.value).Some? && Codes(c.body).Ok?
    ensures c.head.None? ==> r == Err(AttributeError)
    ensures r.Ok? ==> r.value == RuleLine(ToCode(c.head.value).value, Codes(c.body).value)
  {
    if c.head.None? then Err(AttributeError)
    else
      var head := ToCode(c.head.value);
      var body := Codes(c.body);
      if head.None? || body.Err? then Err(TypeError)
      else Ok(RuleLine(head.value, body.value))
  }

  function RuleLines(rules: seq<Clause>): (r: Result<seq<string>>)
    ensures r.Ok? <==> forall i :: 0 <= i < |rules| ==> RuleLineOf(rules[i]).Ok?
    ensures r.Ok? ==> |r.value| == |rules| && forall i :: 0 <= i < |rules| ==> RuleLineOf(rules[i]) == Ok(r.value[i])
    decreases |rules|
  {
    if |rules| == 0 then Ok([])
    else
      var line :- RuleLineOf(rules[0]);
      var rest :- RuleLines(rules[1..]);
      assert forall i :: 1 <= i < |rules| ==> rules[i] == rules[1..][i - 1];
      Ok([line] + rest)
  }

  /** `" | ".join(rule_to_str(r) for r in rules)`. */
  function RuleString(rules: seq<Clause>): (r: Result<string>)
    ensures r.Ok? <==> RuleLines(rules).Ok?
    ensures rules == [] ==> r == Ok("")
    ensures |rules| == 1 && r.Ok? ==> r == RuleLineOf(rules[0])
  {
    var lines :- RuleLines(rules);
    Ok(Join(lines, " | "))
  }

  /** `findall` over literal texts joined by a separator, followed by a tail
      with no word character, gives back the texts. */
  lemma {:induction false} FindJoinedCallsThen(ts: seq<string>, sep: string, tail: string)
    requires forall i :: 0 <= i < |sep| ==> !IsWordChar(sep[i])
    requires forall i :: 0 <= i < |tail| ==> !IsWordChar(tail[i])
    requires forall i :: 0 <= i < |ts| ==> IsCall(ts[i])
    ensures FindLiterals(Join(ts, sep) + tail) == ts
    decreases |ts|
  {
    if |ts| == 0 {
      assert Join(ts, sep) + tail == tail;
      NothingFound(tail);
    } else if |ts| == 1 {
      assert Join(ts, sep) + tail == ts[0] + tail;
      FindCallThen(ts[0], tail);
      NothingFound(tail);
    } else {
      var rest := Join(ts[1..], sep);
      FindJoinedCallsThen(ts[1..], sep, tail);
      var x := sep + (rest + tail);
      JoinThen(ts, sep, tail);
      FindCallThen(ts[0], x);
      SkipSeparator(sep, rest + tail);
      assert ts == [ts[0]] + ts[1..];
    }
  }

  /** Text with no word character holds no call. */
  lemma NothingFound(tail: string)
    requires forall i :: 0 <= i < |tail| ==> !IsWordChar(tail[i])
    ensures FindLiterals(tail) == []
  {
    SkipSeparator(tail, "");
    assert tail + "" == tail;
  }

  lemma JoinThen(ts: seq<string>, sep: string, tail: string)
    requires |ts| > 1
    ensures Join(ts, sep) + tail == ts[0] + (sep + (Join(ts[1..], sep) + tail))
  {
  }


  /** The rule line logged for a printable rule reads back through
      `transform_rule_to_tester_format` as the same head and body, literal
      by literal. */
  lemma RuleLineReadsBack(c: Clause)
    requires c.head.Some? && Printable(c.head.value)
    requires forall i :: 0 <= i < |c.body| ==> Printable(c.body[i])
    ensures RuleLineOf(c).Ok?
    ensures Transform(RuleLineOf(c).value).Some?
    ensures var d := Transform(RuleLineOf(c).value).value;
            && Key(d.head.value) == Key(c.head.value)
            && |d.body| == |c.body|
            && forall i :: 0 <= i < |c.body| ==> Key(d.body[i]) == Key(c.body[i])
  {
    var h := c.head.value;
    CodeShape(h);
    CodesShape(c.body);
    var ht := ToCode(h).value;
    var ts := Codes(c.body).value;
    var j := Join(ts, ", ");
    assert RuleLineOf(c) == Ok(RuleLine(ht, ts));
    RuleLineParts(ht, ts);
    TransformLiterals(h, c.body, ts);
    TransformOfParts(RuleLine(ht, ts), ht + " ", " " + (j + "."));
  }

  /** The logged line of a head text and body texts splits at its ":-" into
      the stripped head and the body's calls. */
  lemma RuleLineParts(ht: string, ts: seq<string>)
    requires ':' !in ht && IsStripped(ht)
    requires forall i :: 0 <= i < |ts| ==> IsCall(ts[i]) && ':' !in ts[i]
    ensures var j := Join(ts, ", ");
            && SplitOn(RuleLine(ht, ts), ":-") == [ht + " ", " " + (j + ".")]
            && Strip(ht + " ") == ht
            && FindLiterals(Strip(" " + (j + "."))) == ts
  {
    var j := Join(ts, ", ");
    RuleLineSplit(ht, ts);
    StripPadded(ht);
    BodyFound(ts, j);
  }

  lemma RuleLineSplit(ht: string, ts: seq<string>)
    requires ':' !in ht
    requires forall i :: 0 <= i < |ts| ==> ':' !in ts[i]
    ensures SplitOn(RuleLine(ht, ts), ":-") == [ht + " ", " " + (Join(ts, ", ") + ".")]
  {
    RuleLineRegrouped(ht, ts);
    HeadAndBody(ht, ts);
  }

  lemma RuleLineRegrouped(ht: string, ts: seq<string>)
    ensures RuleLine(ht, ts) == (ht + " ") + ":-" + (" " + (Join(ts, ", ") + "."))
  {
  }

  lemma HeadAndBody(ht: string, ts: seq<string>)
    requires ':' !in ht
    requires forall i :: 0 <= i < |ts| ==> ':' !in ts[i]
    ensures SplitOn((ht + " ") + ":-" + (" " + (Join(ts, ", ") + ".")), ":-") == [ht + " ", " " + (Join(ts, ", ") + ".")]
  {
    var j := Join(ts, ", ");
    JoinNoChar(ts, ", ", ':');
    assert ':' !in " " + (j + ".");
    assert ':' !in ht + " ";
    HeadBodySplit(ht + " ", " " + (j + "."));
  }

  lemma BodyFound(ts: seq<string>, j: string)
    requires forall i :: 0 <= i < |ts| ==> IsCall(ts[i])
    requires j == Join(ts, ", ")
    ensures FindLiterals(Strip(" " + (j + "."))) == ts
  {
    BodyStrip(ts, j);
    BodyCalls(ts, ", ", ".");
  }

  lemma BodyStrip(ts: seq<string>, j: string)
    requires forall i :: 0 <= i < |ts| ==> IsCall(ts[i])
    requires j == Join(ts, ", ")
    ensures Strip(" " + (j + ".")) == j + "."
  {
    BodyStripped(ts, j);
    StripPadded(j + ".");
  }

  /** The body of a logged line, its calls joined by ", " and closed by
      ".", is found call by call. */
  lemma BodyCalls(ts: seq<string>, sep: string, stop: string)
    requires sep == ", " && stop == "."
    requires forall i :: 0 <= i < |ts| ==> IsCall(ts[i])
    ensures FindLiterals(Join(ts, sep) + stop) == ts
  {
    assert !IsWordChar(',') && !IsWordChar(' ') && !IsWordChar('.');
    FindJoinedCallsThen(ts, sep, stop);
  }

  /** A joined body of literal texts followed by '.' has no blank at either
      end. */
  lemma BodyStripped(ts: seq<string>, j: string)
    requires forall i :: 0 <= i < |ts| ==> IsCall(ts[i])
    requires j == Join(ts, ", ")
    ensures IsStripped(j + ".")
  {
    if |ts| > 0 {
      JoinEnds(ts, ", ");
      var n0 :| 0 < n0 < |ts[0]| - 1 && Call(ts[0], n0);
      assert ts[0][..n0][0] == ts[0][0];
      assert (j + ".")[0] == j[0];
    }
  }

  /** The cells of `new_row` that both clients write. */
  function BaseRow(timestamp: string, client: string, dataset: string, rule: string, m: ConfMatrix): (r: Row)
    ensures r.Keys == FieldSet(Expected3)
    ensures HasKey(r, client, dataset)
    ensures forall k :: k in r ==> r[k] != Null
  {
    map[
      "timestamp" := Text(timestamp), "client_id" := Text(client), "dataset" := Text(dataset),
      "final_rule" := Text(rule),
      "tp" := Count(m.tp), "fn" := Count(m.fn), "tn" := Count(m.tn), "fp" := Count(m.fp),
      "accuracy" := Metric, "precision" := Metric, "recall" := Metric, "f1" := Metric
    ]
  }

  /** fedpopper/client2.py's `new_row` adds the rule count and the mean rule
      length. */
  function NewRow2(timestamp: string, client: string, dataset: string, rules: seq<Clause>, rule: string, m: ConfMatrix): (r: Row)
    ensures r.Keys == FieldSet(Columns2)
    ensures HasKey(r, client, dataset)
    ensures r["num_rules"] == Count(|rules|)
  {
    BaseRow(timestamp, client, dataset, rule, m)["num_rules" := Count(|rules|)]["avg_rule_length" := Metric]
  }

  /** fedpopper/client3.py's "Clean None values": every `None` cell becomes
      the empty string. */
  function CleanRow(row: Row): (r: Row)
    ensures r.Keys == row.Keys
    ensures forall k :: k in r ==> r[k] != Null && (row[k] != Null ==> r[k] == row[k])
  {
    map k | k in row :: if row[k] == Null then Text("") else row[k]
  }

  /** No cell of the new row is ever `None`, so the cleaning changes
      nothing. */
  lemma CleanBaseRow(timestamp: string, client: string, dataset: string, rule: string, m: ConfMatrix)
    ensures CleanRow(BaseRow(timestamp, client, dataset, rule, m)) == BaseRow(timestamp, client, dataset, rule, m)
  {
  }

  // ---------------------------------------------------------------------------
  // save_client_result
  // ---------------------------------------------------------------------------

  /** fedpopper/client3.py: an existing file is kept only when it can be read
      and its header is exactly the expected fields; otherwise it is reset. */
  function Load3(f: CsvFile): (rows: seq<Row>)
    ensures rows != [] ==> f.Table? && f.fieldnames == Some(Expected3)
    ensures ReaderShaped(f) ==> forall i :: 0 <= i < |rows| ==> rows[i].Keys == FieldSet(Expected3)
  {
    match f
    case Table(Some(fields), rows) => if fields == Expected3 then rows else []
    case _ => []
  }

  /** `save_client_result` of fedpopper/client3.py; the clock reading is
      the `timestamp` parameter. */
  function Save3(f: CsvFile, timestamp: string, client: string, dataset: string, rules: seq<Clause>, m: ConfMatrix): (r: Result<CsvFile>)
    ensures r.Ok? ==> r.value.Table? && r.value.fieldnames == Some(Expected3)
    ensures RuleString(rules).Err? ==> r.Err?
  {
    var rows := Load3(f);
    var rule :- RuleString(rules);
    var row := CleanRow(BaseRow(timestamp, client, dataset, rule, m));
    var all :- Upsert(rows, row, client, dataset);
    Write(Expected3, all)
  }

  /** On a file as a reader produces it, the save fails only on a rule it
      cannot print, and the new file holds every other key's rows in their
      order followed by the one new row. */
  lemma Save3Succeeds(f: CsvFile, timestamp: string, client: string, dataset: string, rules: seq<Clause>, m: ConfMatrix)
    requires ReaderShaped(f) && RuleString(rules).Ok?
    ensures Save3(f, timestamp, client, dataset, rules, m).Ok?
    ensures Save3(f, timestamp, client, dataset, rules, m).value
         == Table(Some(Expected3), KeepOthers(Load3(f), client, dataset).value
                                   + [BaseRow(timestamp, client, dataset, RuleString(rules).value, m)])
  {
    var rows := Load3(f);
    var row := BaseRow(timestamp, client, dataset, RuleString(rules).value, m);
    CleanBaseRow(timestamp, client, dataset, RuleString(rules).value, m);
    assert KeepOthers(rows, client, dataset).Ok? by {
      forall i | 0 <= i < |rows| ensures SameKey(rows[i], client, dataset).Ok? {
        assert "client_id" in FieldSet(Expected3) && "dataset" in FieldSet(Expected3);
      }
    }
    var all := KeepOthers(rows, client, dataset).value + [row];
    assert Upsert(rows, row, client, dataset) == Ok(all);
    forall i | 0 <= i < |all| ensures all[i].Keys == FieldSet(Expected3) {
      if i < |all| - 1 {
        assert all[i] in rows;
      }
    }
    WriteFull(Expected3, all);
  }

  /** A file saved by fedpopper/client3.py is read back whole by the next
      save, which replaces only the row of the same key. */
  lemma Save3Twice(f: CsvFile, t1: string, t2: string, client: string, dataset: string,
                   rules1: seq<Clause>, rules2: seq<Clause>, m1: ConfMatrix, m2: ConfMatrix)
    requires ReaderShaped(f) && RuleString(rules1).Ok? && RuleString(rules2).Ok?
    ensures Save3(f, t1, client, dataset, rules1, m1).Ok?
    ensures ReaderShaped(Save3(f, t1, client, dataset, rules1, m1).value)
    ensures Save3(Save3(f, t1, client, dataset, rules1, m1).value, t2, client, dataset, rules2, m2)
         == Save3(f, t2, client, dataset, rules2, m2)
  {
    Save3Succeeds(f, t1, client, dataset, rules1, m1);
    var g := Save3(f, t1, client, dataset, rules1, m1).value;
    Save3Succeeds(g, t2, client, dataset, rules2, m2);
    Save3Succeeds(f, t2, client, dataset, rules2, m2);
    var first := BaseRow(t1, client, dataset, RuleString(rules1).value, m1);
    var second := BaseRow(t2, client, dataset, RuleString(rules2).value, m2);
    UpsertTwice(Load3(f), first, second, client, dataset);
  }

  /** fedpopper/client2.py: no file gives no rows, and a file the csv module
      fails on raises. */
  function Load2(f: CsvFile): (r: Result<seq<Row>>)
    ensures r.Err? <==> f.Unreadable?
    ensures r.Err? ==> r.error == CsvError
    ensures f.Table? ==> r == Ok(f.rows)
  {
    match f
    case Missing => Ok([])
    case Unreadable => Err(CsvError)
    case Table(_, rows) => Ok(rows)
  }

  /** `save_client_result` of fedpopper/client2.py: no check of the header,
      so rows read from a file with other columns reach the comparison and
      the writer as they are. */
  function Save2(f: CsvFile, timestamp: string, client: string, dataset: string, rules: seq<Clause>, m: ConfMatrix): (r: Result<CsvFile>)
    ensures r.Ok? ==> r.value.Table? && r.value.fieldnames == Some(Columns2)
    ensures RuleString(rules).Err? || f.Unreadable? ==> r.Err?
  {
    var rule :- RuleString(rules);
    var rows :- Load2(f);
    var all :- Upsert(rows, NewRow2(timestamp, client, dataset, rules, rule, m), client, dataset);
    Write(Columns2, all)
  }

  /** On its own file, or none, fedpopper/client2.py's save fails only on
      a rule it cannot print, and keeps one row per key like the other
      client's. */
  lemma Save2Succeeds(f: CsvFile, timestamp: string, client: string, dataset: string, rules: seq<Clause>, m: ConfMatrix)
    requires ReaderShaped(f) && (f.Missing? || (f.Table? && f.fieldnames == Some(Columns2)))
    requires RuleString(rules).Ok?
    ensures Save2(f, timestamp, client, dataset, rules, m).Ok?
    ensures Save2(f, timestamp, client, dataset, rules, m).value
         == Table(Some(Columns2), KeepOthers(Load2(f).value, client, dataset).value
                                  + [NewRow2(timestamp, client, dataset, rules, RuleString(rules).value, m)])
  {
    var rows := Load2(f).value;
    var row := NewRow2(timestamp, client, dataset, rules, RuleString(rules).value, m);
    assert KeepOthers(rows, client, dataset).Ok? by {
      forall i | 0 <= i < |rows| ensures SameKey(rows[i], client, dataset).Ok? {
        assert "client_id" in FieldSet(Columns2) && "dataset" in FieldSet(Columns2);
      }
    }
    var all := KeepOthers(rows, client, dataset).value + [row];
    assert Upsert(rows, row, client, dataset) == Ok(all);
    forall i | 0 <= i < |all| ensures all[i].Keys == FieldSet(Columns2) {
      if i < |all| - 1 {
        assert all[i] in rows;
      }
    }
    WriteFull(Columns2, all);
  }

  /** fedpopper/client2.py's save raises as soon as a row it keeps from the
      file has a field outside its own columns. */
  lemma Save2ForeignField(f: CsvFile, timestamp: string, client: string, dataset: string, rules: seq<Clause>, m: ConfMatrix, k: string)
    requires f.Table? && RuleString(rules).Ok? && KeepOthers(f.rows, client, dataset).Ok?
    requires k !in Columns2
    requires exists x :: x in KeepOthers(f.rows, client, dataset).value && k in x
    ensures Save2(f, timestamp, client, dataset, rules, m) == Err(ValueError)
  {
    var kept := KeepOthers(f.rows, client, dataset).value;
    var all := kept + [NewRow2(timestamp, client, dataset, rules, RuleString(rules).value, m)];
    assert Upsert(f.rows, all[|all| - 1], client, dataset) == Ok(all);
    var x :| x in kept && k in x;
    var i :| 0 <= i < |kept| && kept[i] == x;
    assert all[i] == x && !(all[i].Keys <= FieldSet(Columns2));
  }

  /** Two files from which fedpopper/client3.py loads the same rows are
      saved alike. */
  lemma Save3ByLoad(f: CsvFile, g: CsvFile, timestamp: string, client: string, dataset: string, rules: seq<Clause>, m: ConfMatrix)
    requires Load3(f) == Load3(g)
    ensures Save3(f, timestamp, client, dataset, rules, m) == Save3(g, timestamp, client, dataset, rules, m)
  {
  }

  /** A file with a column fedpopper/client2.py does not write makes its
      save raise, where fedpopper/client3.py resets such a file and saves
      as if there were none. */
  lemma ForeignColumnRejected(header: seq<string>, row: Row, timestamp: string, client: string, dataset: string, m: ConfMatrix)
    requires row.Keys == FieldSet(header) && "note" in row
    requires "client_id" in row && row["client_id"] != Text(client)
    ensures Save2(Table(Some(header), [row]), timestamp, client, dataset, [], m) == Err(ValueError)
    ensures Save3(Table(Some(header), [row]), timestamp, client, dataset, [], m)
         == Save3(Missing, timestamp, client, dataset, [], m)
  {
    ForeignRowKept(header, row, client, dataset);
    Save2ForeignField(Table(Some(header), [row]), timestamp, client, dataset, [], m, "note");
    ForeignHeaderReset(header, row);
    Save3ByLoad(Table(Some(header), [row]), Missing, timestamp, client, dataset, [], m);
  }

  lemma ForeignRowKept(header: seq<string>, row: Row, client: string, dataset: string)
    requires "note" in row && "client_id" in row && row["client_id"] != Text(client)
    ensures RuleString([]).Ok? && "note" !in Columns2
    ensures KeepOthers(Table(Some(header), [row]).rows, client, dataset).Ok?
    ensures exists x :: x in KeepOthers(Table(Some(header), [row]).rows, client, dataset).value && "note" in x
  {
    assert RuleString([]) == Ok("");
    KeepOne(row, client, dataset);
    assert row in KeepOthers([row], client, dataset).value;
  }

  lemma ForeignHeaderReset(header: seq<string>, row: Row)
    requires row.Keys == FieldSet(header) && "note" in row
    ensures Load3(Table(Some(header), [row])) == Load3(Missing)
  {
    assert "note" in header && "note" !in Expected3;
  }
}
