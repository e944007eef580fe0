/** Imports interleaved with every other operation on the asset store, other imports included.
    An import reads the names in the store in one critical section and creates each row in one
    of its own. */
module ImportRuns {
  import opened Wrappers
  import opened Text
  import opened Assets
  import Ownership

  type ThreadID = nat

  /** How far an import has come. `before` remembers the names at the time of the index, and `at`
      the rows that were imported. */
  datatype Import = Import(
    rows: seq<Row>, next: nat, existing: set<string>, batch: set<string>, result: ImportResult,
    before: set<string>, at: seq<nat>)

  datatype Machine = Machine(s: State, imports: map<ThreadID, Import>)

  const START := Machine(Ownership.START, map[])

  datatype Op =
    | Begin(t: ThreadID, rows: seq<Row>)
    | ImportRow(t: ThreadID, newID: ID, now: Time)
    | Other(op: Ownership.Op)

  ghost predicate Legal(m: Machine, op: Op) {
    match op
    case Begin(t, rows) => t !in m.imports && rows != []
    case ImportRow(t, id, _) => t in m.imports && m.imports[t].next < |m.imports[t].rows| && id !in m.s.assets
    case Other(op) => Ownership.Legal(m.s, op)
  }

  function Started(names: set<string>, rows: seq<Row>): Import {
    Import(rows, 0, names, {}, ImportResult(|rows|, [], [], []), names, [])
  }

  function WithFailed(x: Import, issue: Issue): Import {
    x.(next := x.next + 1, result := x.result.(failed := x.result.failed + [issue]))
  }

  function WithSkipped(x: Import, issue: Issue): Import {
    x.(next := x.next + 1, result := x.result.(skipped := x.result.skipped + [issue]))
  }

  function WithImported(x: Import, name: string, a: Asset): Import {
    x.(next := x.next + 1, existing := x.existing + {name}, batch := x.batch + {name},
       result := x.result.(imported := x.result.imported + [a]), at := x.at + [x.next])
  }

  /** The next row of an import, on the store as it stands. */
  ghost function RowNext(assets: map<ID, Asset>, x: Import, id: ID, now: Time): (map<ID, Asset>, Import)
    requires x.next < |x.rows|
  {
    var row := x.rows[x.next];
    var name := Fold(row);
    if name == "" then (assets, WithFailed(x, Issue(x.next, "", NameRequired)))
    else if name in x.existing then (assets, WithSkipped(x, Issue(x.next, row.name, DuplicateExisting)))
    else if name in x.batch then (assets, WithSkipped(x, Issue(x.next, row.name, DuplicateInPayload)))
    else
      var r := CreateOutcome(assets, row, id, now);
      if r.Err? then (assets, WithFailed(x, Issue(x.next, row.name, Invalid(r.error))))
      else (assets[id := r.value], WithImported(x, name, r.value))
  }

  ghost function Next(m: Machine, op: Op): Machine
    requires Legal(m, op)
  {
    match op
    case Begin(t, rows) => m.(imports := m.imports[t := Started(NamesIn(m.s.assets), rows)])
    case ImportRow(t, id, now) =>
      var (assets, x) := RowNext(m.s.assets, m.imports[t], id, now);
      Machine(m.s.(assets := assets), m.imports[t := x])
    case Other(op) => m.(s := Ownership.Next(m.s, op))
  }

  ghost predicate Run(ms: seq<Machine>, ops: seq<Op>) {
    && |ms| == |ops| + 1
    && forall i :: 0 <= i < |ops| ==> Legal(ms[i], ops[i]) && ms[i + 1] == Next(ms[i], ops[i])
  }

  // ---- The store ----

  /** No asset disappears or changes its name. */
  ghost predicate NamesKept(a: map<ID, Asset>, b: map<ID, Asset>) {
    forall id :: id in a ==> id in b && b[id].name == a[id].name
  }

  lemma KeptNames(a: map<ID, Asset>, b: map<ID, Asset>)
    requires NamesKept(a, b)
    ensures NamesIn(a) <= NamesIn(b)
  {
    hide LowerTrim;
    forall name | name in NamesIn(a)
      ensures name in NamesIn(b)
    {
      var id :| id in a && LowerTrim(a[id].name) == name;
      assert LowerTrim(b[id].name) == name;
    }
  }

  lemma CreationKeeps(assets: map<ID, Asset>, row: Row, id: ID, now: Time)
    requires NamesClean(assets) && id !in assets && CreateOutcome(assets, row, id, now).Ok?
    ensures var a := CreateOutcome(assets, row, id, now).value;
      && NamesClean(assets[id := a]) && NamesKept(assets, assets[id := a])
      && NamesIn(assets[id := a]) == NamesIn(assets) + {Fold(row)}
      && Valid(row) && a.name == TrimSpace(row.name) && Fold(row) !in NamesIn(assets)
  {
    hide TrimSpace, Build, NamesIn, Fold;
    BuildMeaning(row, id, now);
    IndexAgreesWithScan(assets, row);
    NamesAfter(assets, id, Build(row, id, now).value, row);
  }

  /** One asset rewritten under its own id and name. */
  lemma OneAssetKeeps(a: map<ID, Asset>, b: map<ID, Asset>, id: ID)
    requires NamesClean(a) && id in a && id in b && b == a[id := b[id]]
    requires b[id].id == a[id].id && b[id].name == a[id].name
    ensures NamesClean(b) && NamesKept(a, b)
  {
    hide Trimmed;
  }

  lemma UpdatesKeep(s: State, op: Ownership.Op)
    requires NamesClean(s.assets) && (op.Assign? || op.Request? || op.Tag?)
    ensures NamesClean(Ownership.Next(s, op).assets) && NamesKept(s.assets, Ownership.Next(s, op).assets)
  {
    hide TrimSpace, TagOutcome, EqualFold, NamesClean, NamesKept;
    if op.asset in s.assets {
      OneAssetKeeps(s.assets, Ownership.Next(s, op).assets, op.asset);
    } else {
      SameAssetsKeep(s.assets);
    }
  }

  lemma SameAssetsKeep(a: map<ID, Asset>)
    ensures NamesKept(a, a)
  {
  }

  lemma OthersKeep(s: State, op: Ownership.Op)
    requires NamesClean(s.assets) && Ownership.Legal(s, op)
    ensures NamesClean(Ownership.Next(s, op).assets) && NamesKept(s.assets, Ownership.Next(s, op).assets)
  {
    hide CreateOutcome, AssignNext, RequestNext, ReviewNext, TagNext, NamesIn;
    if op.Create? {
      if CreateOutcome(s.assets, op.row, op.newID, op.now).Ok? {
        CreationKeeps(s.assets, op.row, op.newID, op.now);
      }
    } else if op.Review? {
      ReviewKeeps(s, op);
    } else {
      UpdatesKeep(s, op);
    }
  }

  lemma ReviewKeeps(s: State, op: Ownership.Op)
    requires NamesClean(s.assets) && op.Review?
    ensures NamesClean(Ownership.Next(s, op).assets) && NamesKept(s.assets, Ownership.Next(s, op).assets)
  {
    hide TrimSpace, Trimmed;
  }

  // ---- One import ----

  function NamesImported(x: Import): set<string> {
    set k | 0 <= k < |x.result.imported| :: LowerTrim(x.result.imported[k].name)
  }

  /** The index holds the names of before and those of the import itself, all of which are still
      in the store. */
  ghost predicate IndexFits(assets: map<ID, Asset>, x: Import) {
    && x.batch == NamesImported(x) && x.existing == x.before + x.batch
    && x.existing <= NamesIn(assets)
  }

  predicate AscendingBelow(s: seq<nat>, n: nat) {
    && (forall k :: 0 <= k < |s| ==> s[k] < n)
    && (forall j, k :: 0 <= j < k < |s| ==> s[j] < s[k])
  }

  function Indices(issues: seq<Issue>): seq<nat> {
    seq(|issues|, k requires 0 <= k < |issues| => issues[k].index)
  }

  /** Every row so far is in exactly one of three ascending lists, and the imported assets have
      the names of their rows, which are valid. */
  ghost predicate Partitioned(x: Import) {
    var skipped, failed := Indices(x.result.skipped), Indices(x.result.failed);
    && x.next <= |x.rows| && x.result.totalRows == |x.rows| && |x.at| == |x.result.imported|
    && AscendingBelow(x.at, x.next) && AscendingBelow(skipped, x.next) && AscendingBelow(failed, x.next)
    && (forall i: nat :: i < x.next ==> i in x.at || i in skipped || i in failed)
    && (forall i: nat :: !(i in x.at && i in skipped) && !(i in x.at && i in failed) && !(i in skipped && i in failed))
    && |x.at| + |skipped| + |failed| == x.next
    && (forall k :: 0 <= k < |x.at| ==>
      Valid(x.rows[x.at[k]]) && x.result.imported[k].name == TrimSpace(x.rows[x.at[k]].name))
  }

  lemma IndicesSnoc(issues: seq<Issue>, issue: Issue)
    ensures Indices(issues + [issue]) == Indices(issues) + [issue.index]
  {
  }

  lemma FailedKeepsPartition(x: Import, issue: Issue)
    requires Partitioned(x) && x.next < |x.rows| && issue.index == x.next
    ensures Partitioned(WithFailed(x, issue))
  {
    hide Valid, TrimSpace, Indices;
    IndicesSnoc(x.result.failed, issue);
  }

  lemma SkippedKeepsPartition(x: Import, issue: Issue)
    requires Partitioned(x) && x.next < |x.rows| && issue.index == x.next
    ensures Partitioned(WithSkipped(x, issue))
  {
    hide Valid, TrimSpace, Indices;
    IndicesSnoc(x.result.skipped, issue);
  }

  lemma ImportedKeepsPartition(x: Import, name: string, a: Asset)
    requires Partitioned(x) && x.next < |x.rows|
    requires Valid(x.rows[x.next]) && a.name == TrimSpace(x.rows[x.next].name)
    ensures Partitioned(WithImported(x, name, a))
  {
    hide Valid, TrimSpace, Indices;
  }

  lemma RowKeepsPartition(assets: map<ID, Asset>, x: Import, id: ID, now: Time)
    requires Partitioned(x) && x.next < |x.rows| && NamesClean(assets) && id !in assets
    ensures Partitioned(RowNext(assets, x, id, now).1)
  {
    hide Partitioned, CreateOutcome, Fold, NamesClean, WithFailed, WithSkipped, WithImported, TrimSpace, Valid;
    var row := x.rows[x.next];
    var r := CreateOutcome(assets, row, id, now);
    FailedKeepsPartition(x, Issue(x.next, "", NameRequired));
    SkippedKeepsPartition(x, Issue(x.next, row.name, DuplicateExisting));
    SkippedKeepsPartition(x, Issue(x.next, row.name, DuplicateInPayload));
    if r.Ok? {
      CreationKeeps(assets, row, id, now);
      ImportedKeepsPartition(x, Fold(row), r.value);
    } else {
      FailedKeepsPartition(x, Issue(x.next, row.name, Invalid(r.error)));
    }
  }

  lemma ImportedName(x: Import, row: Row, a: Asset)
    requires a.name == TrimSpace(row.name)
    ensures NamesImported(WithImported(x, Fold(row), a)) == NamesImported(x) + {Fold(row)}
  {
    hide TrimSpace, ToLower;
    assert TrimSpace(TrimSpace(row.name)) == TrimSpace(row.name);
    var y := WithImported(x, Fold(row), a);
    var n := |x.result.imported|;
    assert y.result.imported[n] == a && forall k :: 0 <= k < n ==> y.result.imported[k] == x.result.imported[k];
  }

  lemma RowKeepsIndex(assets: map<ID, Asset>, x: Import, id: ID, now: Time)
    requires IndexFits(assets, x) && x.next < |x.rows| && NamesClean(assets) && id !in assets
    ensures var (after, y) := RowNext(assets, x, id, now);
      IndexFits(after, y) && NamesClean(after) && NamesKept(assets, after)
  {
    hide CreateOutcome, Fold, NamesClean, NamesIn, TrimSpace, LowerTrim, Valid;
    var row := x.rows[x.next];
    var r := CreateOutcome(assets, row, id, now);
    if r.Ok? {
      CreationKeeps(assets, row, id, now);
      ImportedName(x, row, r.value);
    }
  }

  // ---- Runs ----

  ghost predicate Inv(m: Machine) {
    && NamesClean(m.s.assets)
    && forall t :: t in m.imports ==> IndexFits(m.s.assets, m.imports[t]) && Partitioned(m.imports[t])
  }

  /** The other imports do not notice that the store has grown. */
  lemma IndexStays(a: map<ID, Asset>, b: map<ID, Asset>, x: Import)
    requires IndexFits(a, x) && NamesKept(a, b)
    ensures IndexFits(b, x)
  {
    hide NamesIn, NamesImported;
    KeptNames(a, b);
  }

  lemma StepKeepsInv(m: Machine, op: Op)
    requires Inv(m) && Legal(m, op)
    ensures Inv(Next(m, op))
  {
    hide IndexFits, Partitioned, NamesClean, NamesKept, RowNext, Ownership.Next, Ownership.Legal, Started;
    var n := Next(m, op);
    match op
    case Begin(t, rows) => StartFits(m.s.assets, rows);
    case ImportRow(t, id, now) =>
      RowKeepsIndex(m.s.assets, m.imports[t], id, now);
      RowKeepsPartition(m.s.assets, m.imports[t], id, now);
      forall u | u in m.imports && u != t
        ensures IndexFits(n.s.assets, m.imports[u])
      {
        IndexStays(m.s.assets, n.s.assets, m.imports[u]);
      }
    case Other(other) =>
      OthersKeep(m.s, other);
      forall u | u in m.imports
        ensures IndexFits(n.s.assets, m.imports[u])
      {
        IndexStays(m.s.assets, n.s.assets, m.imports[u]);
      }
  }

  lemma StartFits(assets: map<ID, Asset>, rows: seq<Row>)
    ensures IndexFits(assets, Started(NamesIn(assets), rows)) && Partitioned(Started(NamesIn(assets), rows))
  {
    hide NamesIn;
  }

  lemma {:induction false} AlwaysInv(ms: seq<Machine>, ops: seq<Op>, i: nat)
    requires Run(ms, ops) && ms[0] == START && i <= |ops|
    ensures Inv(ms[i])
  {
    hide Legal, Next, IndexFits, Partitioned;
    if i > 0 {
      AlwaysInv(ms, ops, i - 1);
      StepKeepsInv(ms[i - 1], ops[i - 1]);
    }
  }

  /** Over every interleaving the rows that an import has come to are partitioned into imported,
      skipped and failed ones, in order. */
  lemma RowsArePartitioned(ms: seq<Machine>, ops: seq<Op>, i: nat, t: ThreadID)
    requires Run(ms, ops) && ms[0] == START && i <= |ops| && t in ms[i].imports
    ensures Partitioned(ms[i].imports[t])
  {
    hide Legal, Next, IndexFits, Partitioned;
    AlwaysInv(ms, ops, i);
  }

  /** Somebody else took the name after the index was built. */
  ghost predicate TakenSince(assets: map<ID, Asset>, x: Import, name: string) {
    name in NamesIn(assets) && name !in x.before && name !in NamesImported(x)
  }

  /** Over every interleaving the next row of an import is reported as a name clash if and only if
      it is valid and another call took its name after the index was built; it is imported if and
      only if it is valid and the name is free; and the reason for a duplicate within the payload
      is never given. */
  lemma RowOutcome(ms: seq<Machine>, ops: seq<Op>, i: nat)
    requires Run(ms, ops) && ms[0] == START && i < |ops| && ops[i].ImportRow?
    ensures var assets, x, y := ms[i].s.assets, ms[i].imports[ops[i].t], ms[i + 1].imports[ops[i].t];
      var row := x.rows[x.next];
      && (y.result.failed == x.result.failed + [Issue(x.next, row.name, Invalid(NameExists))] <==>
        Valid(row) && TakenSince(assets, x, Fold(row)))
      && (y.at == x.at + [x.next] <==> Valid(row) && Fold(row) !in NamesIn(assets))
      && y.result.skipped != x.result.skipped + [Issue(x.next, row.name, DuplicateInPayload)]
  {
    hide Next, Partitioned, IndexFits;
    AlwaysInv(ms, ops, i);
    assert Legal(ms[i], ops[i]);
    RowStep(ms[i], ops[i]);
  }

  lemma OneAppended<T>(s: seq<T>, x: T)
    ensures s != s + [x] && forall y :: s + [y] == s + [x] ==> y == x
  {
    forall y | s + [y] == s + [x]
      ensures y == x
    {
      assert (s + [y])[|s|] == y && (s + [x])[|s|] == x;
    }
    assert |s + [x]| == |s| + 1;
  }

  lemma RowStep(m: Machine, op: Op)
    requires NamesClean(m.s.assets) && Legal(m, op) && op.ImportRow? && IndexFits(m.s.assets, m.imports[op.t])
    ensures var assets, x, y := m.s.assets, m.imports[op.t], Next(m, op).imports[op.t];
      var row := x.rows[x.next];
      && (y.result.failed == x.result.failed + [Issue(x.next, row.name, Invalid(NameExists))] <==>
        Valid(row) && TakenSince(assets, x, Fold(row)))
      && (y.at == x.at + [x.next] <==> Valid(row) && Fold(row) !in NamesIn(assets))
      && y.result.skipped != x.result.skipped + [Issue(x.next, row.name, DuplicateInPayload)]
  {
    hide Build, NamesIn, Fold, TrimSpace, NamesImported, NamesClean;
    var x := m.imports[op.t];
    var row := x.rows[x.next];
    var clash := Issue(x.next, row.name, Invalid(NameExists));
    OneAppended(x.result.failed, clash);
    OneAppended(x.result.skipped, Issue(x.next, row.name, DuplicateInPayload));
    OneAppended(x.at, x.next);
    ValidNamesNotBlank(row);
    BuildMeaning(row, op.newID, op.now);
    BuildNeverClashes(row, op.newID, op.now);
    IndexAgreesWithScan(m.s.assets, row);
  }

  // ---- Uninterrupted imports ----

  ghost function RunRows(assets: map<ID, Asset>, rows: seq<Row>, ids: seq<ID>, times: seq<Time>, n: nat)
    : (r: (map<ID, Asset>, Import))
    requires n <= |rows| == |ids| == |times|
    ensures r.1.rows == rows && r.1.next == n
  {
    if n == 0 then (assets, Started(NamesIn(assets), rows))
    else
      var (before, x) := RunRows(assets, rows, ids, times, n - 1);
      RowNext(before, x, ids[n - 1], times[n - 1])
  }

  /** With nothing in between, the rows one by one leave the store and the report of the import as
      a whole. */
  lemma {:induction false} UninterruptedImport(assets: map<ID, Asset>, rows: seq<Row>, ids: seq<ID>, times: seq<Time>,
                                               n: nat)
    requires n <= |rows| == |ids| == |times| && NamesClean(assets) && NewIDs(assets, ids)
    ensures var (after, x) := RunRows(assets, rows, ids, times, n);
      && after == CreateAll(assets, rows, ids, times, n) && x.result == Report(assets, rows, ids, times, n)
      && x.existing == NamesIn(after) && x.batch <= x.existing
  {
    hide CreateOutcome, Fold, NamesIn, NamesClean, NewIDs, Build, CreateAll, Report;
    if n == 0 {
      NothingImported(assets, rows, ids, times);
    } else {
      UninterruptedImport(assets, rows, ids, times, n - 1);
      ImportStep(assets, rows, ids, times, n - 1);
    }
  }

  // ---- The other theorems about the store carry over ----

  /** A run without imports that passes through the stores of a run with imports: the k-th of them
      is at place `at[k]`. */
  ghost predicate Projects(ms: seq<Machine>, ops: seq<Op>, states: seq<State>, done: seq<Ownership.Op>, at: seq<nat>) {
    && Run(ms, ops) && Ownership.Run(states, done) && states[0] == ms[0].s
    && |at| == |ms| && at[|ops|] == |done|
    && (forall j, k :: 0 <= j <= k < |at| ==> at[j] <= at[k])
    && (forall k :: 0 <= k < |at| ==> at[k] <= |done| && states[at[k]] == ms[k].s)
  }

  /** What a step does to the store is one step without imports, or nothing. */
  lemma StepProjects(m: Machine, op: Op) returns (done: seq<Ownership.Op>)
    requires Legal(m, op)
    ensures |done| <= 1
    ensures done == [] ==> Next(m, op).s == m.s
    ensures done != [] ==> Ownership.Legal(m.s, done[0]) && Next(m, op).s == Ownership.Next(m.s, done[0])
  {
    hide CreateOutcome, Fold, NamesIn, AssignNext, RequestNext, ReviewNext, TagNext;
    match op
    case Begin(_, _) => done := [];
    case ImportRow(t, id, now) =>
      var x := m.imports[t];
      var row := x.rows[x.next];
      done := if Next(m, op).s == m.s then [] else [Ownership.Create(row, id, now)];
    case Other(other) => done := [other];
  }

  lemma {:induction false} RunsProject(ms: seq<Machine>, ops: seq<Op>)
    returns (states: seq<State>, done: seq<Ownership.Op>, at: seq<nat>)
    requires Run(ms, ops)
    ensures Projects(ms, ops, states, done, at)
    decreases |ops|
  {
    hide Legal, Next, Ownership.Legal, Ownership.Next;
    if ops == [] {
      states, done, at := [ms[0].s], [], [0];
    } else {
      var n := |ops| - 1;
      assert Run(ms[..n + 1], ops[..n]);
      var states', done', at' := RunsProject(ms[..n + 1], ops[..n]);
      assert ms[n + 1] == Next(ms[n], ops[n]);
      var more := StepProjects(ms[n], ops[n]);
      states, done := states', done';
      if more != [] {
        states, done := states' + [ms[n + 1].s], done' + more;
      }
      at := at' + [|done|];
      assert forall k :: 0 <= k < |at'| ==> states[at[k]] == states'[at'[k]] && ms[..n + 1][k] == ms[k];
    }
  }

  /** Over every interleaving, imports included, no two assets have the same name up to case. */
  lemma NamesStayDistinct(ms: seq<Machine>, ops: seq<Op>, i: nat)
    requires Run(ms, ops) && ms[0] == START && i <= |ops|
    ensures Ownership.NamesDistinct(ms[i].s.assets)
  {
    hide Run, Ownership.Run, Ownership.NamesDistinct;
    var states, done, at := RunsProject(ms, ops);
    RunLength(ms, ops);
    Ownership.AssetNamesStayDistinct(states, done, at[i]);
  }

  /** Likewise logs only grow, and every transfer is logged once. */
  lemma LogsCarryOver(ms: seq<Machine>, ops: seq<Op>, i: nat, j: nat, id: ID, t: ID)
    requires Run(ms, ops) && ms[0] == START && i <= j <= |ops|
    ensures EventsOf(ms[i].s, id) <= EventsOf(ms[j].s, id)
    ensures t in ms[j].s.transfers ==>
      var x := ms[j].s.transfers[t];
      x.id == t && x.assetID in ms[j].s.assets && Ownership.LoggedOnce(EventsOf(ms[j].s, x.assetID), x)
  {
    hide Run, Ownership.Run, Ownership.LoggedOnce;
    var states, done, at := RunsProject(ms, ops);
    RunLength(ms, ops);
    Ownership.LogIsAppendOnly(states, done, at[i], at[j], id);
    if t in ms[j].s.transfers {
      Ownership.TransfersAreLogged(states, done, at[j], t);
    }
  }

  lemma RunLength(ms: seq<Machine>, ops: seq<Op>)
    requires Run(ms, ops)
    ensures |ms| == |ops| + 1
  {
  }

  lemma StoresKeepTheInvariant(ms: seq<Machine>, ops: seq<Op>, i: nat)
    requires Run(ms, ops) && ms[0] == START && i <= |ops|
    ensures Ownership.Inv(ms[i].s)
  {
    hide Run, Ownership.Run, Ownership.Inv;
    var states, done, at := RunsProject(ms, ops);
    RunLength(ms, ops);
    Ownership.AlwaysInv(states, done, at[i]);
  }

  // ---- Transfers, from the request to the review ----

  /** Step `k` is an accepted request for a transfer. */
  ghost predicate Requested(ms: seq<Machine>, ops: seq<Op>, k: nat, t: ID)
    requires Run(ms, ops) && k < |ops|
  {
    && ops[k].Other? && ops[k].op.Request? && ops[k].op.newID == t
    && Ownership.RequestAccepted(ms[k].s, ops[k].op)
  }

  /** A transfer's terms, which no step changes. */
  ghost predicate SameTerms(x: Transfer, y: Transfer) {
    && y.id == x.id && y.assetID == x.assetID && y.fromOwner == x.fromOwner && y.toOwner == x.toOwner
    && y.requestedBy == x.requestedBy && y.reason == x.reason && y.requestedAt == x.requestedAt
  }

  lemma StepKeepsTransfers(m: Machine, op: Op, t: ID)
    requires Legal(m, op) && Ownership.Inv(m.s)
    ensures t in m.s.transfers ==>
      t in Next(m, op).s.transfers && SameTerms(m.s.transfers[t], Next(m, op).s.transfers[t])
    ensures t in Next(m, op).s.transfers && t !in m.s.transfers ==>
      op.Other? && op.op.Request? && op.op.newID == t && Ownership.RequestAccepted(m.s, op.op)
  {
    hide TrimSpace, EqualFold, CreateOutcome, Ownership.Inv, RowNext, RequestNext, ReviewNext, TagOutcome;
    if op.Other? && op.op.Request? {
      hide Ownership.Next;
      Ownership.RequestOutcome(m.s, op.op);
    } else if op.Other? && op.op.Review? {
      hide Ownership.Next;
      Ownership.ReviewDecides(m.s, op.op);
    }
  }

  lemma RequestIsStored(m: Machine, op: Op)
    requires Legal(m, op) && op.Other? && op.op.Request? && Ownership.RequestAccepted(m.s, op.op)
    ensures op.op.newID in Next(m, op).s.transfers
    ensures Ownership.AskedFor(m.s, op.op, Next(m, op).s.transfers[op.op.newID])
  {
    hide Ownership.Next, TrimSpace, EqualFold;
    Ownership.RequestOutcome(m.s, op.op);
  }

  /** Over every interleaving, imports included: an accepted request makes a transfer from the owner
      that the asset had at that step to the trimmed owner that the step names, and it stays so. */
  lemma {:induction false} RequestsMakeTransfers(ms: seq<Machine>, ops: seq<Op>, k: nat, i: nat, t: ID)
    requires Run(ms, ops) && ms[0] == START && k < i <= |ops| && Requested(ms, ops, k, t)
    ensures t in ms[i].s.transfers && Ownership.AskedFor(ms[k].s, ops[k].op, ms[i].s.transfers[t])
  {
    hide Legal, Next, Ownership.Inv, Ownership.RequestAccepted, TrimSpace;
    if i == k + 1 {
      assert Legal(ms[k], ops[k]) && ms[k + 1] == Next(ms[k], ops[k]);
      RequestIsStored(ms[k], ops[k]);
    } else {
      RequestsMakeTransfers(ms, ops, k, i - 1, t);
      StoresKeepTheInvariant(ms, ops, i - 1);
      assert ms[i] == Next(ms[i - 1], ops[i - 1]);
      StepKeepsTransfers(ms[i - 1], ops[i - 1], t);
    }
  }

  /** And every stored transfer was made by such a request. */
  lemma {:induction false} TransfersComeFromRequests(ms: seq<Machine>, ops: seq<Op>, i: nat, t: ID)
    requires Run(ms, ops) && ms[0] == START && i <= |ops| && t in ms[i].s.transfers
    ensures exists k: nat ::
      k < i && Requested(ms, ops, k, t) && Ownership.AskedFor(ms[k].s, ops[k].op, ms[i].s.transfers[t])
  {
    hide Legal, Next, Ownership.Inv, Ownership.RequestAccepted, TrimSpace, Ownership.AskedFor;
    if i > 0 {
      StoresKeepTheInvariant(ms, ops, i - 1);
      assert ms[i] == Next(ms[i - 1], ops[i - 1]);
      StepKeepsTransfers(ms[i - 1], ops[i - 1], t);
      if t in ms[i - 1].s.transfers {
        TransfersComeFromRequests(ms, ops, i - 1, t);
        var k: nat :| k < i - 1 && Requested(ms, ops, k, t);
        RequestsMakeTransfers(ms, ops, k, i, t);
      } else {
        assert Requested(ms, ops, i - 1, t);
        RequestsMakeTransfers(ms, ops, i - 1, i, t);
      }
    }
  }

  /** Right after an approving review of a pending transfer the asset belongs to the owner that the
      step which requested the transfer asked for; right after a rejecting one to whom it did. */
  lemma ReviewsDecideOwners(ms: seq<Machine>, ops: seq<Op>, k: nat, i: nat, t: ID)
    requires Run(ms, ops) && ms[0] == START && k < i < |ops| && Requested(ms, ops, k, t)
    requires ops[i].Other? && ops[i].op.Review? && ops[i].op.transfer == t && TrimSpace(ops[i].op.actor) != ""
    requires t in ms[i].s.transfers && ms[i].s.transfers[t].status == Pending
    ensures var id := ops[k].op.asset;
      && id in ms[i].s.assets && id in ms[i + 1].s.assets
      && ms[i + 1].s.assets[id].owner ==
        (if ops[i].op.approved then TrimSpace(ops[k].op.owner) else ms[i].s.assets[id].owner)
      && t in ms[i + 1].s.transfers
      && ms[i + 1].s.transfers[t].status == if ops[i].op.approved then Approved else Rejected
  {
    hide Ownership.Inv, Ownership.RequestAccepted, TrimSpace;
    RequestsMakeTransfers(ms, ops, k, i, t);
    StoresKeepTheInvariant(ms, ops, i);
    assert Legal(ms[i], ops[i]) && ms[i + 1] == Next(ms[i], ops[i]);
    Ownership.ReviewDecides(ms[i].s, ops[i].op);
    hide Ownership.Next;
  }

  /** Right after an assignment the asset belongs to the owner it names, and the last event in its
      log names that owner and the previous one. */
  lemma AssignmentsSetOwners(ms: seq<Machine>, ops: seq<Op>, i: nat)
    requires Run(ms, ops) && i < |ops| && ops[i].Other? && ops[i].op.Assign?
    requires Ownership.AssignAccepted(ms[i].s, ops[i].op)
    ensures var id, log := ops[i].op.asset, EventsOf(ms[i + 1].s, ops[i].op.asset);
      && id in ms[i + 1].s.assets && ms[i + 1].s.assets[id].owner == TrimSpace(ops[i].op.owner)
      && log != [] && log[..|log| - 1] == EventsOf(ms[i].s, id)
      && log[|log| - 1].kind == OwnerAssigned && log[|log| - 1].toOwner == TrimSpace(ops[i].op.owner)
      && log[|log| - 1].fromOwner == ms[i].s.assets[id].owner
  {
    hide TrimSpace;
    assert ms[i + 1] == Next(ms[i], ops[i]);
    Ownership.AssignmentOutcome(ms[i].s, ops[i].op);
    hide Ownership.Next;
  }
}
