/** `wikipedia`: builds the population tables from the rows of the sortable
    wikitables on the municipality list page. The HTML parsing itself is
    not modelled: each row arrives as the texts of its `td` cells, with the
    inline annotation spans already removed. */
module Table {
  import opened PyStrings
  import opened Json
  import Text

  /** The texts of the `td` cells of one `tr`; `rows` in the source once
      each text has gone through `text_strip`. */
  type Row = seq<string>

  /** The HTTP response handed to `wikipedia`: its status code and, for each
      sortable wikitable of the page, its rows as raw cell texts. */
  datatype Response = Response(status: int, tables: seq<seq<Row>>)

  /** The two tables filled row by row: Swedish name and Finnish name to
      population. */
  datatype Names = Names(sv: map<string, int>, fi: map<string, int>)

  /** The `container` that `wikipedia` returns. */
  datatype Container = Container(sv: map<string, int>, fi: map<string, int>, en: map<string, int>)

  /** A row of raw cell texts after `text_strip`. */
  function Clean(raw: Row): (cells: Row)
    ensures |cells| == |raw|
    decreases |raw|
  {
    if raw == [] then [] else Clean(raw[..|raw| - 1]) + [Text.Normalize(raw[|raw| - 1])]
  }

  /** Every row of the page after cleaning, in order. */
  function CleanAll(rows: seq<Row>): (r: seq<Row>)
    ensures |r| == |rows|
    decreases |rows|
  {
    if rows == [] then [] else CleanAll(rows[..|rows| - 1]) + [Clean(rows[|rows| - 1])]
  }

  /** What one pass of the row loop does with a cleaned row: a row without
      cells is skipped, one with fewer than four cells raises IndexError at
      `rows[3]`, one whose fourth cell `int()` rejects raises ValueError, and
      any other row stores its population under its first two cells. */
  datatype Step = Skip | Short | NotANumber | Store(sv: string, fi: string, population: int)

  function Classify(row: Row): (step: Step)
    ensures step.Skip? <==> |row| == 0
    ensures step.Short? <==> 0 < |row| < 4
    ensures step.NotANumber? <==> |row| >= 4 && ParseInt(row[3]).None?
    ensures step.Store? ==> |row| >= 4 && step.sv == row[0] && step.fi == row[1]
                            && ParseInt(row[3]) == Some(step.population)
  {
    if |row| == 0 then Skip
    else if |row| < 4 then Short
    else match ParseInt(row[3])
      case None => NotANumber
      case Some(n) => Store(row[0], row[1], n)
  }

  /** The loop's view of every row, in order. */
  function Steps(rows: seq<Row>): (steps: seq<Step>)
    ensures |steps| == |rows|
    decreases |rows|
  {
    if rows == [] then [] else Steps(rows[..|rows| - 1]) + [Classify(rows[|rows| - 1])]
  }

  /** Step `i` is the classification of row `i`. */
  lemma {:induction false} StepsAt(rows: seq<Row>, i: nat)
    requires i < |rows|
    ensures Steps(rows)[i] == Classify(rows[i])
    decreases |rows|
  {
    if i < |rows| - 1 {
      StepsAt(rows[..|rows| - 1], i);
    }
  }

  /** A step that makes `wikipedia` raise. */
  predicate Raises(step: Step)
  {
    step.Short? || step.NotANumber?
  }

  /** The exception a raising step raises. */
  function StepError(step: Step): Error
    requires Raises(step)
  {
    if step.Short? then IndexError else ValueError
  }

  /** The name a storing step writes to the Swedish (0) or Finnish (1) table. */
  function Name(step: Step, col: nat): string
    requires step.Store? && col < 2
  {
    if col == 0 then step.sv else step.fi
  }

  /** The step stores under `key` in table `col`. */
  predicate Writes(step: Step, col: nat, key: string)
    requires col < 2
  {
    step.Store? && Name(step, col) == key
  }

  /** One pass of the row loop. */
  function AddStep(acc: Names, step: Step): Result<Names>
  {
    match step
    case Skip => Ok(acc)
    case Short => Err(IndexError)
    case NotANumber => Err(ValueError)
    case Store(sv, fi, n) => Ok(Names(acc.sv[sv := n], acc.fi[fi := n]))
  }

  /** All steps in page order, the first exception ending the walk. */
  function Fill(steps: seq<Step>): (r: Result<Names>)
    ensures r.Err? ==> r.error == IndexError || r.error == ValueError
    decreases |steps|
  {
    if steps == [] then Ok(Names(map[], map[]))
    else match Fill(steps[..|steps| - 1])
      case Err(e) => Err(e)
      case Ok(acc) => AddStep(acc, steps[|steps| - 1])
  }

  /** The rows of all tables, table after table. */
  function Flatten(tables: seq<seq<Row>>): seq<Row>
    decreases |tables|
  {
    if tables == [] then [] else Flatten(tables[..|tables| - 1]) + tables[|tables| - 1]
  }

  /** `{**fi, **sv}`: every name of either table, the Swedish entry winning
      where both have one. */
  function Overlay(fi: map<string, int>, sv: map<string, int>): (en: map<string, int>)
    ensures en.Keys == fi.Keys + sv.Keys
    ensures forall k :: k in sv ==> en[k] == sv[k]
    ensures forall k :: k in fi && k !in sv ==> en[k] == fi[k]
  {
    fi + sv
  }

  /** The cleaned rows of every table of the page, in page order. */
  function PageRows(response: Response): seq<Row>
  {
    CleanAll(Flatten(response.tables))
  }

  /** The page's cleaned rows, as the loop sees them. */
  function PageSteps(response: Response): seq<Step>
  {
    Steps(PageRows(response))
  }

  /** What `wikipedia(response)` returns or raises: three empty tables for
      a status other than 200; otherwise the walk's tables with `en` their
      overlay, or the IndexError or ValueError a row raises. */
  function ParsePage(response: Response): (r: Result<Container>)
    ensures response.status != 200 ==> r == Ok(Container(map[], map[], map[]))
    ensures r.Ok? ==> r.value.en == Overlay(r.value.fi, r.value.sv)
    ensures r.Err? ==> r.error == IndexError || r.error == ValueError
  {
    if response.status != 200 then Ok(Container(map[], map[], map[]))
    else match Fill(PageSteps(response))
      case Err(e) => Err(e)
      case Ok(n) => Ok(Container(n.sv, n.fi, Overlay(n.fi, n.sv)))
  }

  function Column(n: Names, col: nat): map<string, int>
    requires col < 2
  {
    if col == 0 then n.sv else n.fi
  }

  // ---------------------------------------------------------------------
  // Properties of the row walk
  // ---------------------------------------------------------------------

  /** The walk of a non-empty page: the walk of all rows but the last,
      then the last row. */
  lemma FillLast(steps: seq<Step>)
    requires steps != []
    ensures Fill(steps) == match Fill(steps[..|steps| - 1])
                           case Err(e) => Err(e)
                           case Ok(acc) => AddStep(acc, steps[|steps| - 1])
  {
  }

  /** The walk succeeds exactly when no row raises. */
  lemma {:induction false} FillOkIff(steps: seq<Step>)
    ensures Fill(steps).Ok? <==> forall i :: 0 <= i < |steps| ==> !Raises(steps[i])
    decreases |steps|
  {
    if steps != [] {
      var n := |steps| - 1;
      var init := steps[..n];
      FillOkIff(init);
      FillLast(steps);
      assert forall i :: 0 <= i < n ==> init[i] == steps[i];
    }
  }

  /** Once a prefix has raised, the rest of the page is never looked at. */
  lemma {:induction false} FillErrorSticks(steps: seq<Step>, m: nat)
    requires m <= |steps| && Fill(steps[..m]).Err?
    ensures Fill(steps) == Fill(steps[..m])
    decreases |steps|
  {
    if m < |steps| {
      var init := steps[..|steps| - 1];
      assert init[..m] == steps[..m];
      FillErrorSticks(init, m);
    } else {
      assert steps[..m] == steps;
    }
  }

  /** The exception raised is the one of the first raising row. */
  lemma FillFirstError(steps: seq<Step>, i: nat)
    requires i < |steps| && Raises(steps[i])
    requires forall j :: 0 <= j < i ==> !Raises(steps[j])
    ensures Fill(steps) == Err(StepError(steps[i]))
  {
    var pre := steps[..i];
    FillOkIff(pre);
    assert steps[..i + 1][..i] == pre;
    assert Fill(steps[..i + 1]) == Err(StepError(steps[i]));
    FillErrorSticks(steps, i + 1);
  }

  /** Last write wins: a name is in the Swedish (col 0) or Finnish (col 1)
      table exactly when some row stores under it, and its population is
      the one of the last such row. */
  lemma {:induction false} FillLastWriteWins(steps: seq<Step>, col: nat, key: string)
    requires col < 2 && Fill(steps).Ok?
    ensures key in Column(Fill(steps).value, col)
            <==> exists i :: 0 <= i < |steps| && Writes(steps[i], col, key)
    ensures key in Column(Fill(steps).value, col) ==>
              exists i :: 0 <= i < |steps| && Writes(steps[i], col, key)
                && steps[i].population == Column(Fill(steps).value, col)[key]
                && forall j :: i < j < |steps| ==> !Writes(steps[j], col, key)
    decreases |steps|
  {
    if steps == [] {
      return;
    }
    var n := |steps| - 1;
    var init := steps[..n];
    var last := steps[n];
    assert Fill(init).Ok?;
    FillLastWriteWins(init, col, key);
    var acc := Fill(init).value;
    var m := Column(Fill(steps).value, col);
    assert forall i :: 0 <= i < n ==> init[i] == steps[i];
    if Writes(last, col, key) {
      assert m[key] == last.population;
    } else {
      assert last.Store? ==> m == Column(acc, col)[Name(last, col) := last.population];
      assert last.Skip? ==> m == Column(acc, col);
      if key in m {
        var i :| 0 <= i < n && Writes(init[i], col, key)
                 && init[i].population == Column(acc, col)[key]
                 && forall j :: i < j < n ==> !Writes(init[j], col, key);
        assert Writes(steps[i], col, key);
      }
    }
  }

  /** With status 200 the page yields tables exactly when no row of any
      table raises (which exception a raising page raises is
      `FillFirstError`); `en` then holds every name of `fi` and `sv`, the
      Swedish entry winning. Any other status yields three empty tables. */
  lemma ParsePageOutcome(response: Response)
    ensures response.status != 200 ==> ParsePage(response) == Ok(Container(map[], map[], map[]))
    ensures response.status == 200 ==>
              var steps := PageSteps(response);
              ParsePage(response).Ok? <==> forall i :: 0 <= i < |steps| ==> !Raises(steps[i])
    ensures ParsePage(response).Ok? ==>
              var c := ParsePage(response).value;
              && c.en.Keys == c.fi.Keys + c.sv.Keys
              && (forall k :: k in c.sv ==> c.en[k] == c.sv[k])
              && (forall k :: k in c.fi && k !in c.sv ==> c.en[k] == c.fi[k])
  {
    FillOkIff(PageSteps(response));
  }

  /** Row-level reading of the walk: a row raises exactly when it has one to
      three cells, or four or more with a fourth cell `int()` rejects. */
  lemma RowRaises(row: Row)
    ensures Raises(Classify(row)) <==> |row| > 0 && (|row| < 4 || ParseInt(row[3]).None?)
  {
  }

  /** Row `row` is stored, with `key` in column `col`. */
  predicate Carries(row: Row, col: nat, key: string)
    requires col < 2
  {
    |row| >= 4 && row[col] == key
  }

  /** A row writes `key` to table `col` exactly when it carries it there,
      and writes the population its fourth cell reads as. */
  lemma ClassifyWrites(row: Row, col: nat, key: string)
    requires col < 2 && !Raises(Classify(row))
    ensures Writes(Classify(row), col, key) <==> Carries(row, col, key)
    ensures Writes(Classify(row), col, key) ==> ParseInt(row[3]) == Some(Classify(row).population)
  {
  }

  /** `steps` is the loop's view of `rows`, row by row. */
  predicate Classified(rows: seq<Row>, steps: seq<Step>)
  {
    |steps| == |rows| && forall i :: 0 <= i < |rows| ==> steps[i] == Classify(rows[i])
  }

  lemma StepsClassified(rows: seq<Row>)
    ensures Classified(rows, Steps(rows))
  {
    forall i | 0 <= i < |rows| ensures Steps(rows)[i] == Classify(rows[i]) {
      StepsAt(rows, i);
    }
  }

  /** Last write wins, on cleaned rows. */
  lemma RowsLastWriteWins(rows: seq<Row>, steps: seq<Step>, col: nat, key: string)
    requires col < 2 && Classified(rows, steps) && Fill(steps).Ok?
    ensures key in Column(Fill(steps).value, col)
            <==> exists i :: 0 <= i < |rows| && Carries(rows[i], col, key)
    ensures key in Column(Fill(steps).value, col) ==>
              exists i :: 0 <= i < |rows| && Carries(rows[i], col, key)
                && ParseInt(rows[i][3]) == Some(Column(Fill(steps).value, col)[key])
                && forall j :: i < j < |rows| ==> !Carries(rows[j], col, key)
  {
    var m := Column(Fill(steps).value, col);
    FillOkIff(steps);
    FillLastWriteWins(steps, col, key);
    forall j | 0 <= j < |rows|
      ensures Writes(steps[j], col, key) <==> Carries(rows[j], col, key)
    {
      ClassifyWrites(rows[j], col, key);
    }
    if key in m {
      var i :| 0 <= i < |steps| && Writes(steps[i], col, key)
               && steps[i].population == m[key]
               && forall j :: i < j < |steps| ==> !Writes(steps[j], col, key);
      ClassifyWrites(rows[i], col, key);
    }
  }

  /** Row-level reading of last write wins for a whole page: with status
      200 and no exception, `sv` (col 0) and `fi` (col 1) hold a name
      exactly when some cleaned row of four or more cells carries it in that
      column, with the population read from the last such row. */
  lemma PageNames(response: Response, col: nat, key: string)
    requires response.status == 200 && ParsePage(response).Ok? && col < 2
    ensures var c := ParsePage(response).value;
      Column(Names(c.sv, c.fi), col) == Column(Fill(PageSteps(response)).value, col)
    ensures var rows := PageRows(response);
      var table := Column(Fill(PageSteps(response)).value, col);
      && (key in table <==> exists i :: 0 <= i < |rows| && Carries(rows[i], col, key))
      && (key in table ==>
            exists i :: 0 <= i < |rows| && Carries(rows[i], col, key)
              && ParseInt(rows[i][3]) == Some(table[key])
              && forall j :: i < j < |rows| ==> !Carries(rows[j], col, key))
  {
    var rows := PageRows(response);
    StepsClassified(rows);
    RowsLastWriteWins(rows, Steps(rows), col, key);
  }

  // ---------------------------------------------------------------------
  // The imperative walk of `wikipedia`
  // ---------------------------------------------------------------------

  lemma {:induction false} FlattenAppend(a: seq<seq<Row>>, b: seq<seq<Row>>)
    ensures Flatten(a + b) == Flatten(a) + Flatten(b)
    decreases |b|
  {
    if b != [] {
      var n := |b| - 1;
      assert (a + b)[..|a + b| - 1] == a + b[..n];
      FlattenAppend(a, b[..n]);
    } else {
      assert a + b == a;
    }
  }

  /** The rows walked before row `k` of table `t`, plus that row, start the
      whole page's rows. */
  lemma FlattenPrefix(tables: seq<seq<Row>>, t: nat, k: nat)
    requires t < |tables| && k < |tables[t]|
    ensures var p := Flatten(tables[..t]) + tables[t][..k + 1];
      |p| <= |Flatten(tables)| && Flatten(tables)[..|p|] == p
  {
    assert tables == tables[..t] + ([tables[t]] + tables[t + 1..]);
    FlattenAppend(tables[..t], [tables[t]] + tables[t + 1..]);
    FlattenAppend([tables[t]], tables[t + 1..]);
    assert Flatten([tables[t]]) == tables[t] by {
      assert [tables[t]][..0] == [];
    }
    assert tables[t] == tables[t][..k + 1] + tables[t][k + 1..];
  }

  /** Cleaning a prefix of the rows gives a prefix of the cleaned rows. */
  lemma {:induction false} CleanAllPrefix(rows: seq<Row>, m: nat)
    requires m <= |rows|
    ensures CleanAll(rows)[..m] == CleanAll(rows[..m])
    decreases |rows|
  {
    if m < |rows| {
      var n := |rows| - 1;
      assert rows[..n][..m] == rows[..m];
      CleanAllPrefix(rows[..n], m);
    } else {
      assert rows[..m] == rows;
    }
  }

  /** The steps of a prefix of the rows start the steps of all rows. */
  lemma {:induction false} StepsPrefix(rows: seq<Row>, m: nat)
    requires m <= |rows|
    ensures Steps(rows)[..m] == Steps(rows[..m])
    decreases |rows|
  {
    if m < |rows| {
      var n := |rows| - 1;
      assert rows[..n][..m] == rows[..m];
      StepsPrefix(rows[..n], m);
    } else {
      assert rows[..m] == rows;
    }
  }

  /** The cell loop of `wikipedia`: each cell's text through `text_strip`,
      appended in order. */
  method CleanRow(raw: Row) returns (cells: Row)
    ensures cells == Clean(raw)
  {
    cells := [];
    for c := 0 to |raw|
      invariant cells == Clean(raw[..c])
    {
      var cell := Text.TextStrip(raw[c]);
      assert raw[..c + 1][..c] == raw[..c];
      cells := cells + [cell];
    }
    assert raw[..|raw|] == raw;
  }

  /** Walking one more row: the walk so far, then that row's step. */
  lemma RowStep(before: seq<Row>, raw: Row)
    ensures Fill(Steps(CleanAll(before + [raw]))) ==
              match Fill(Steps(CleanAll(before)))
              case Err(e) => Err(e)
              case Ok(acc) => AddStep(acc, Classify(Clean(raw)))
  {
    var walked := before + [raw];
    assert walked[..|walked| - 1] == before;
    assert CleanAll(walked)[..|before|] == CleanAll(before);
  }

  /** The body of the row loop of `wikipedia`: clean the cells, then, if
      the row has any, store `int(rows[3])` under `rows[0]` in `sv` and
      under `rows[1]` in `fi`. */
  method WalkRow(sv: map<string, int>, fi: map<string, int>, raw: Row) returns (r: Result<Names>)
    ensures r == AddStep(Names(sv, fi), Classify(Clean(raw)))
  {
    var cells := CleanRow(raw);
    if |cells| == 0 {
      return Ok(Names(sv, fi));
    }
    if |cells| < 4 {
      return Err(IndexError);
    }
    var population := ParseInt(cells[3]);
    if population.None? {
      return Err(ValueError);
    }
    r := Ok(Names(sv[cells[0] := population.value], fi[cells[1] := population.value]));
  }

  /** `wikipedia(response)`: walks tables, rows and cells, cleaning each
      cell with `text_strip` and filling `sv` and `fi` in place, then lays
      `sv` over `fi` for `en`. A status other than 200 skips the walk. */
  method Wikipedia(response: Response) returns (r: Result<Container>)
    ensures r == ParsePage(response)
  {
    var sv: map<string, int> := map[];
    var fi: map<string, int> := map[];
    if response.status == 200 {
      var tables := response.tables;
      for t := 0 to |tables|
        invariant Fill(Steps(CleanAll(Flatten(tables[..t])))) == Ok(Names(sv, fi))
      {
        var table := tables[t];
        ghost var done := Flatten(tables[..t]);
        PrefixOfTable(done, table, 0);
        for k := 0 to |table|
          invariant Fill(Steps(CleanAll(done + table[..k]))) == Ok(Names(sv, fi))
        {
          var step := WalkRow(sv, fi, table[k]);
          PrefixOfTable(done, table, k + 1);
          RowStep(done + table[..k], table[k]);
          match step {
            case Err(e) =>
              ErrorEndsPage(tables, t, k);
              return Err(e);
            case Ok(names) =>
              sv, fi := names.sv, names.fi;
          }
        }
        PrefixOfTable(done, table, |table|);
        FlattenNext(tables, t);
      }
      assert tables[..|tables|] == tables;
    } else {
      assert fi + sv == map[];
    }
    r := Ok(Container(sv, fi, fi + sv));
  }

  /** The rows walked so far: the earlier tables, then the first `k` rows
      of the current one. */
  lemma PrefixOfTable(done: seq<Row>, table: seq<Row>, k: nat)
    requires k <= |table|
    ensures k == 0 ==> done + table[..k] == done
    ensures k > 0 ==> done + table[..k] == (done + table[..k - 1]) + [table[k - 1]]
    ensures k == |table| ==> done + table[..k] == done + table
  {
    if k > 0 {
      assert table[..k] == table[..k - 1] + [table[k - 1]];
    }
  }

  /** The rows of the first `t + 1` tables. */
  lemma FlattenNext(tables: seq<seq<Row>>, t: nat)
    requires t < |tables|
    ensures Flatten(tables[..t + 1]) == Flatten(tables[..t]) + tables[t]
  {
    assert tables[..t + 1][..t] == tables[..t];
  }

  /** An exception at row `k` of table `t` is the exception of the page. */
  lemma ErrorEndsPage(tables: seq<seq<Row>>, t: nat, k: nat)
    requires t < |tables| && k < |tables[t]|
    requires Fill(Steps(CleanAll(Flatten(tables[..t]) + tables[t][..k + 1]))).Err?
    ensures Fill(Steps(CleanAll(Flatten(tables))))
            == Fill(Steps(CleanAll(Flatten(tables[..t]) + tables[t][..k + 1])))
  {
    var walked := Flatten(tables[..t]) + tables[t][..k + 1];
    var all := Steps(CleanAll(Flatten(tables)));
    FlattenPrefix(tables, t, k);
    CleanAllPrefix(Flatten(tables), |walked|);
    StepsPrefix(CleanAll(Flatten(tables)), |walked|);
    FillErrorSticks(all, |walked|);
  }

  // ---------------------------------------------------------------------
  // The container as it is cached and indexed by language
  // ---------------------------------------------------------------------

  function NamesJson(m: map<string, int>): Json
  {
    Obj(map k | k in m :: Int(m[k]))
  }

  /** The container as `json.dumps` writes it and `json.load` reads it back. */
  function ToJson(c: Container): Json
  {
    Obj(map["sv" := NamesJson(c.sv), "fi" := NamesJson(c.fi), "en" := NamesJson(c.en)])
  }

  /** `container[lang]`: one of the three tables for `sv`, `fi` or `en`, a
      KeyError for any other language. */
  lemma LanguageTable(c: Container, lang: string)
    ensures Subscript(ToJson(c), lang).Ok? <==> lang in {"sv", "fi", "en"}
    ensures lang == "sv" ==> Subscript(ToJson(c), lang) == Ok(NamesJson(c.sv))
    ensures lang == "fi" ==> Subscript(ToJson(c), lang) == Ok(NamesJson(c.fi))
    ensures lang == "en" ==> Subscript(ToJson(c), lang) == Ok(NamesJson(c.en))
    ensures lang !in {"sv", "fi", "en"} ==> Subscript(ToJson(c), lang) == Err(KeyError(lang))
  {
  }
}
