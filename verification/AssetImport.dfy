/** What the report of an import says about the rows. */
module AssetImport {
  import opened Wrappers
  import opened Assets

  /** The rows below `n` with this fate, in order. */
  ghost function Indices(assets: map<ID, Asset>, rows: seq<Row>, n: nat, fate: Fate): seq<nat>
    requires n <= |rows|
  {
    if n == 0 then []
    else Indices(assets, rows, n - 1, fate) + if FateOf(assets, rows, n - 1) == fate then [n - 1] else []
  }

  lemma {:induction false} IndicesMeaning(assets: map<ID, Asset>, rows: seq<Row>, n: nat, fate: Fate)
    requires n <= |rows|
    ensures forall k :: 0 <= k < |Indices(assets, rows, n, fate)| ==>
      Indices(assets, rows, n, fate)[k] < n && FateOf(assets, rows, Indices(assets, rows, n, fate)[k]) == fate
    ensures forall j, k :: 0 <= j < k < |Indices(assets, rows, n, fate)| ==>
      Indices(assets, rows, n, fate)[j] < Indices(assets, rows, n, fate)[k]
    ensures forall i: nat :: i < n && FateOf(assets, rows, i) == fate ==> i in Indices(assets, rows, n, fate)
  {
    hide FateOf;
    if n > 0 {
      IndicesMeaning(assets, rows, n - 1, fate);
    }
  }

  /** The k-th imported asset was built from the k-th of these rows. */
  ghost predicate ListsImported(imported: seq<Asset>, at: seq<nat>, rows: seq<Row>, ids: seq<ID>, times: seq<Time>) {
    && |rows| == |ids| == |times| && |imported| == |at|
    && forall k :: 0 <= k < |at| ==> at[k] < |rows| && Build(rows[at[k]], ids[at[k]], times[at[k]]) == Ok(imported[k])
  }

  ghost predicate ListsSkipped(skipped: seq<Issue>, at: seq<nat>, rows: seq<Row>) {
    && |skipped| == |at|
    && forall k :: 0 <= k < |at| ==> at[k] < |rows| && skipped[k] == Issue(at[k], rows[at[k]].name, DuplicateExisting)
  }

  ghost predicate ListsFailed(failed: seq<Issue>, at: seq<nat>, rows: seq<Row>) {
    && |failed| == |at|
    && forall k :: 0 <= k < |at| ==> at[k] < |rows| && failed[k] == FailureOf(rows[at[k]], at[k])
  }

  lemma NextIndex(assets: map<ID, Asset>, rows: seq<Row>, i: nat, fate: Fate)
    requires i < |rows|
    ensures Indices(assets, rows, i + 1, fate) ==
      if FateOf(assets, rows, i) == fate then Indices(assets, rows, i, fate) + [i] else Indices(assets, rows, i, fate)
  {
    hide FateOf;
  }

  /** The report partitions the rows: its three lists give, in row order, exactly the rows of
      each fate, and their lengths add up. */
  lemma {:induction false} ReportPartitionsRows(assets: map<ID, Asset>, rows: seq<Row>, ids: seq<ID>,
                                                times: seq<Time>, n: nat)
    requires n <= |rows| == |ids| == |times|
    ensures var r := Report(assets, rows, ids, times, n);
      && r.totalRows == |rows| && |r.imported| + |r.skipped| + |r.failed| == n
      && ListsImported(r.imported, Indices(assets, rows, n, Imported), rows, ids, times)
      && ListsSkipped(r.skipped, Indices(assets, rows, n, Skipped), rows)
      && ListsFailed(r.failed, Indices(assets, rows, n, Failed), rows)
  {
    hide Build, FailureOf, Provided;
    if n > 0 {
      var i := n - 1;
      var r := Report(assets, rows, ids, times, i);
      ReportPartitionsRows(assets, rows, ids, times, i);
      forall fate
        ensures var before := Indices(assets, rows, i, fate);
          Indices(assets, rows, n, fate) == if FateOf(assets, rows, i) == fate then before + [i] else before
      {
        NextIndex(assets, rows, i, fate);
      }
      BuildMeaning(rows[i], ids[i], times[i]);
      hide ListsImported, ListsSkipped, ListsFailed, Indices;
      match FateOf(assets, rows, i)
      case Imported => OneMoreImported(r.imported, Indices(assets, rows, i, Imported), rows, ids, times, i);
      case Skipped => OneMoreSkipped(r.skipped, Indices(assets, rows, i, Skipped), rows, i);
      case Failed => OneMoreFailed(r.failed, Indices(assets, rows, i, Failed), rows, i);
    }
  }

  lemma OneMoreImported(imported: seq<Asset>, at: seq<nat>, rows: seq<Row>, ids: seq<ID>, times: seq<Time>, i: nat)
    requires ListsImported(imported, at, rows, ids, times) && i < |rows| && Build(rows[i], ids[i], times[i]).Ok?
    ensures ListsImported(imported + [Build(rows[i], ids[i], times[i]).value], at + [i], rows, ids, times)
  {
    hide Build;
  }

  lemma OneMoreSkipped(skipped: seq<Issue>, at: seq<nat>, rows: seq<Row>, i: nat)
    requires ListsSkipped(skipped, at, rows) && i < |rows|
    ensures ListsSkipped(skipped + [Issue(i, rows[i].name, DuplicateExisting)], at + [i], rows)
  {
  }

  lemma OneMoreFailed(failed: seq<Issue>, at: seq<nat>, rows: seq<Row>, i: nat)
    requires ListsFailed(failed, at, rows) && i < |rows|
    ensures ListsFailed(failed + [FailureOf(rows[i], i)], at + [i], rows)
  {
  }

  /** A failed row was refused by its own content: the duplicate-name error of creation never
      appears in a report, nor does the duplicate-within-payload reason. */
  lemma FailuresAreTheRowsOwn(assets: map<ID, Asset>, rows: seq<Row>, i: nat)
    requires i < |rows| && FateOf(assets, rows, i) == Failed
    ensures FailureOf(rows[i], i).reason == if Fold(rows[i]) == "" then NameRequired
      else Invalid(Build(rows[i], 0, 0).error)
    ensures FailureOf(rows[i], i).reason !in {DuplicateInPayload, DuplicateExisting, Invalid(NameExists)}
  {
    hide Provided, Build;
    BuildNeverClashes(rows[i], 0, 0);
    ValidNamesNotBlank(rows[i]);
  }

  ghost predicate SameName(rows: seq<Row>, i: nat, j: nat) {
    i < |rows| && j < |rows| && Fold(rows[i]) == Fold(rows[j])
  }

  /** For a name new to the store, exactly the first valid row of that name is imported. */
  lemma FirstValidRowIsImported(assets: map<ID, Asset>, rows: seq<Row>, i: nat)
    requires i < |rows|
    ensures FateOf(assets, rows, i) == Imported <==>
      && Valid(rows[i]) && Fold(rows[i]) !in NamesIn(assets)
      && forall j: nat :: j < i && SameName(rows, i, j) ==> !Valid(rows[j])
  {
  }

  /** Around an imported row, the earlier rows of its name failed and the later ones are skipped. */
  lemma OthersOfTheNameAreNot(assets: map<ID, Asset>, rows: seq<Row>, i: nat, j: nat)
    requires i < |rows| && FateOf(assets, rows, i) == Imported && SameName(rows, i, j)
    ensures j < i ==> FateOf(assets, rows, j) == Failed
    ensures j > i ==> FateOf(assets, rows, j) == Skipped
  {
    hide Build, NamesIn, Fold;
    FirstValidRowIsImported(assets, rows, i);
    ValidNamesNotBlank(rows[j]);
    if j < i {
      assert SameName(rows, i, j);
      forall k: nat | k < j && Fold(rows[k]) == Fold(rows[j])
        ensures !Valid(rows[k])
      {
        assert SameName(rows, i, k);
      }
    }
  }

  /** Importing the same rows again imports none of the rows that were imported before. */
  lemma ReimportSkips(assets: map<ID, Asset>, rows: seq<Row>, ids: seq<ID>, times: seq<Time>, i: nat)
    requires |rows| == |ids| == |times| && NamesClean(assets) && NewIDs(assets, ids)
    requires i < |rows| && FateOf(assets, rows, i) == Imported
    ensures FateOf(CreateAll(assets, rows, ids, times, |rows|), rows, i) == Skipped
  {
    hide Build, NamesIn, Fold, CreateAll, NamesClean, NewIDs;
    CreationFollowsFates(assets, rows, ids, times, |rows|);
    assert NamedSoFar(assets, rows, |rows|, Fold(rows[i]));
  }
}
