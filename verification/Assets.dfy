/** Assets: validation and creation, ownership changes with their audit log, and bulk import. */
module Assets {
  import opened Wrappers
  import opened Text
  import opened Values
  import opened Lists

  type ID = nat
  type Time = int

  datatype AssetError =
    | FieldsRequired | BadPort | MetadataRequired | UsernameRequired | AuthMethodRequired | AuthMethodNotString
    | BadAuthMethod
    | EngineRequired | EngineNotString | BadEngine | DatabaseRequired | UnsupportedType | BadEnvironment
    | BadCriticality
    | NameExists | AssetNotFound | NoRows
    | ActorRequired | NoCurrentOwner | SameOwner | TransferNotFound | AlreadyReviewed

  /** A creation request. The metadata entries are listed in the order they are visited. */
  datatype Row = Row(
    name: string, assetType: string, host: string, port: int, environment: string, owner: string,
    criticality: string, groups: seq<string>, metadata: seq<(string, Value)>)

  datatype Asset = Asset(
    id: ID, name: string, assetType: string, host: string, port: int, environment: string, owner: string,
    criticality: string, groups: seq<string>, metadata: map<string, Value>, createdAt: Time, updatedAt: Time)

  // ---- Validation ----

  function DefaultPort(assetType: string): int {
    if assetType == "ssh" then 22 else if assetType == "database" then 5432 else 0
  }

  /** Keys are normalised; of two entries that collide the one visited last wins. */
  function NormalizeKeys(entries: seq<(string, Value)>): map<string, Value> {
    if entries == [] then map[]
    else
      var last := entries[|entries| - 1];
      NormalizeKeys(entries[..|entries| - 1])[LowerTrim(last.0) := last.1]
  }

  /** The last entry visited whose key has this normal form. */
  ghost predicate LastFor(entries: seq<(string, Value)>, key: string, i: nat) {
    && i < |entries| && LowerTrim(entries[i].0) == key
    && forall j :: i < j < |entries| ==> LowerTrim(entries[j].0) != key
  }

  /** A key is present if and only if it is the normal form of some entry's key, and its value is
      that of the last such entry visited. */
  lemma {:induction false} NormalizedKeyMeaning(entries: seq<(string, Value)>, key: string)
    ensures key in NormalizeKeys(entries) <==> exists i: nat :: LastFor(entries, key, i)
    ensures forall i: nat :: LastFor(entries, key, i) ==>
      key in NormalizeKeys(entries) && NormalizeKeys(entries)[key] == entries[i].1
  {
    hide LowerTrim;
    if entries != [] {
      var t, n := entries[..|entries| - 1], |entries| - 1;
      NormalizedKeyMeaning(t, key);
      if LowerTrim(entries[n].0) == key {
        assert LastFor(entries, key, n);
      } else {
        assert forall i: nat :: LastFor(t, key, i) <==> LastFor(entries, key, i);
      }
    }
  }

  function CheckMetadata(assetType: string, m: map<string, Value>): Result<map<string, Value>, AssetError> {
    if assetType == "ssh" then
      if "username" !in m then Err(UsernameRequired)
      else if "auth_method" !in m then Err(AuthMethodRequired)
      else if !m["auth_method"].Str? then Err(AuthMethodNotString)
      else
        var method' := LowerTrim(m["auth_method"].s);
        if method' != "password" && method' != "key" then Err(BadAuthMethod)
        else Ok(m["auth_method" := Str(method')])
    else if assetType == "database" then
      if "engine" !in m then Err(EngineRequired)
      else if !m["engine"].Str? then Err(EngineNotString)
      else
        var engine := LowerTrim(m["engine"].s);
        if engine != "postgres" && engine != "mysql" && engine != "mssql" then Err(BadEngine)
        else if "database" !in m then Err(DatabaseRequired)
        else if "username" !in m then Err(UsernameRequired)
        else Ok(m["engine" := Str(engine)])
    else Err(UnsupportedType)
  }

  function MetadataOutcome(assetType: string, entries: seq<(string, Value)>): Result<map<string, Value>, AssetError> {
    if entries == [] then Err(MetadataRequired) else CheckMetadata(assetType, NormalizeKeys(entries))
  }

  datatype Tags = Tags(environment: string, owner: string, criticality: string, groups: seq<string>)

  function TagOutcome(environment: string, owner: string, criticality: string, groups: seq<string>)
    : Result<Tags, AssetError>
  {
    var env, crit := LowerTrim(environment), LowerTrim(criticality);
    if env !in {"", "dev", "staging", "prod"} then Err(BadEnvironment)
    else if crit !in {"", "low", "medium", "high", "critical"} then Err(BadCriticality)
    else Ok(Tags(env, TrimSpace(owner), crit, FirstOccurrences(Kept(groups, LowerTrim))))
  }

  /** The asset a request describes, or why it is refused; the store plays no part. */
  function Build(row: Row, id: ID, now: Time): Result<Asset, AssetError> {
    var name, assetType, host := TrimSpace(row.name), LowerTrim(row.assetType), TrimSpace(row.host);
    var port := if row.port == 0 then DefaultPort(assetType) else row.port;
    if name == "" || assetType == "" || host == "" then Err(FieldsRequired)
    else if port <= 0 || port > 65535 then Err(BadPort)
    else
      var metadata := MetadataOutcome(assetType, row.metadata);
      if metadata.Err? then Err(metadata.error)
      else
        var tags := TagOutcome(row.environment, row.owner, row.criticality, row.groups);
        if tags.Err? then Err(tags.error)
        else Ok(Asset(id, name, assetType, host, port, tags.value.environment, tags.value.owner,
                      tags.value.criticality, tags.value.groups, metadata.value, now, now))
  }

  predicate Valid(row: Row) {
    Build(row, 0, 0).Ok?
  }

  /** Validity does not depend on the generated fields, and a built asset has the trimmed name. */
  lemma BuildMeaning(row: Row, id: ID, now: Time)
    ensures Build(row, id, now).Ok? <==> Valid(row)
    ensures Build(row, id, now).Ok? ==>
      var a := Build(row, id, now).value;
      a.id == id && a.name == TrimSpace(row.name) && a.name != "" && a.owner == TrimSpace(row.owner)
      && a == Build(row, 0, 0).value.(id := id, createdAt := now, updatedAt := now)
    ensures Build(row, id, now).Err? ==> Build(row, id, now) == Build(row, 0, 0)
  {
    TagOwner(row);
    hide MetadataOutcome, TagOutcome, TrimSpace, ToLower, DefaultPort;
  }

  lemma TagOwner(row: Row)
    ensures var t := TagOutcome(row.environment, row.owner, row.criticality, row.groups);
      t.Ok? ==> t.value.owner == TrimSpace(row.owner)
  {
  }

  lemma BuildNeverClashes(row: Row, id: ID, now: Time)
    ensures Build(row, id, now) != Err(NameExists)
  {
    hide TrimSpace, ToLower, NormalizeKeys;
  }

  // ---- What is built ----

  /** The connection metadata of an asset type is in order. */
  predicate MetadataFits(assetType: string, m: map<string, Value>) {
    if assetType == "ssh" then
      && "username" in m && "auth_method" in m && m["auth_method"].Str?
      && LowerTrim(m["auth_method"].s) in {"password", "key"}
    else
      && assetType == "database" && "username" in m && "database" in m && "engine" in m && m["engine"].Str?
      && LowerTrim(m["engine"].s) in {"postgres", "mysql", "mssql"}
  }

  lemma MetadataMeaning(assetType: string, m: map<string, Value>)
    ensures CheckMetadata(assetType, m).Ok? <==> MetadataFits(assetType, m)
    ensures CheckMetadata(assetType, m).Ok? ==>
      var n, key := CheckMetadata(assetType, m).value, if assetType == "ssh" then "auth_method" else "engine";
      && n.Keys == m.Keys && n[key] == Str(LowerTrim(m[key].s))
      && forall k :: k in m && k != key ==> n[k] == m[k]
  {
    hide LowerTrim;
  }

  lemma TagMeaning(environment: string, owner: string, criticality: string, groups: seq<string>)
    ensures TagOutcome(environment, owner, criticality, groups).Ok? <==>
      && LowerTrim(environment) in {"", "dev", "staging", "prod"}
      && LowerTrim(criticality) in {"", "low", "medium", "high", "critical"}
    ensures TagOutcome(environment, owner, criticality, groups).Ok? ==>
      var t := TagOutcome(environment, owner, criticality, groups).value;
      && t.environment == LowerTrim(environment) && t.owner == TrimSpace(owner)
      && t.criticality == LowerTrim(criticality)
      && (forall g :: g in t.groups <==> g != "" && exists i :: 0 <= i < |groups| && LowerTrim(groups[i]) == g)
      && (forall i, j :: 0 <= i < j < |t.groups| ==> t.groups[i] != t.groups[j])
  {
    hide LowerTrim, TrimSpace, Kept, FirstOccurrences;
    var kept := Kept(groups, LowerTrim);
    FirstOccurrencesMeaning(kept);
    forall g
      ensures g in kept <==> g != "" && exists i :: 0 <= i < |groups| && LowerTrim(groups[i]) == g
    {
      KeptMembers(groups, LowerTrim, g);
    }
  }

  /** A row describes an asset exactly if its name and host are not blank, its type is known, its
      port, that of the type if left out, is in range, and its metadata and tags are in order; the
      asset then has those, normalised. */
  lemma BuildExactly(row: Row, id: ID, now: Time)
    ensures var assetType := LowerTrim(row.assetType);
      Build(row, id, now).Ok? <==>
        && TrimSpace(row.name) != "" && TrimSpace(row.host) != "" && assetType in {"ssh", "database"}
        && (row.port == 0 || 1 <= row.port <= 65535)
        && row.metadata != [] && MetadataFits(assetType, NormalizeKeys(row.metadata))
        && TagOutcome(row.environment, row.owner, row.criticality, row.groups).Ok?
    ensures Build(row, id, now).Ok? ==>
      var a := Build(row, id, now).value;
      && a.id == id && a.name == TrimSpace(row.name) && a.assetType == LowerTrim(row.assetType)
      && a.host == TrimSpace(row.host) && a.createdAt == now && a.updatedAt == now
      && a.port == (if row.port != 0 then row.port else if a.assetType == "ssh" then 22 else 5432)
      && a.metadata == CheckMetadata(a.assetType, NormalizeKeys(row.metadata)).value
      && Tags(a.environment, a.owner, a.criticality, a.groups) ==
        TagOutcome(row.environment, row.owner, row.criticality, row.groups).value
  {
    MetadataMeaning(LowerTrim(row.assetType), NormalizeKeys(row.metadata));
    hide TrimSpace, ToLower, TagOutcome, NormalizeKeys, CheckMetadata, MetadataFits;
    assert MetadataFits(LowerTrim(row.assetType), NormalizeKeys(row.metadata)) ==>
      LowerTrim(row.assetType) in {"ssh", "database"} by {
      FittingTypes(LowerTrim(row.assetType), NormalizeKeys(row.metadata));
    }
  }

  lemma FittingTypes(assetType: string, m: map<string, Value>)
    ensures MetadataFits(assetType, m) ==> assetType in {"ssh", "database"}
  {
  }

  ghost predicate NameTaken(assets: map<ID, Asset>, name: string) {
    exists id :: id in assets && EqualFold(assets[id].name, name)
  }

  ghost function CreateOutcome(assets: map<ID, Asset>, row: Row, id: ID, now: Time): Result<Asset, AssetError> {
    var built := Build(row, id, now);
    if built.Err? then built
    else if NameTaken(assets, built.value.name) then Err(NameExists)
    else built
  }

  // ---- Ownership ----

  datatype TransferStatus = Pending | Approved | Rejected

  datatype Transfer = Transfer(
    id: ID, assetID: ID, fromOwner: string, toOwner: string, requestedBy: string, reviewedBy: string,
    reason: string, comment: string, status: TransferStatus, requestedAt: Time, reviewedAt: Option<Time>)

  datatype EventKind = OwnerAssigned | TransferRequested | TransferApproved | TransferRejected

  datatype Event = Event(
    kind: EventKind, actor: string, transferID: Option<ID>, fromOwner: string, toOwner: string,
    note: string, at: Time)

  datatype State = State(
    assets: map<ID, Asset>, transfers: map<ID, Transfer>, events: map<ID, seq<Event>>)

  function EventsOf(s: State, id: ID): seq<Event> {
    if id in s.events then s.events[id] else []
  }

  function WithEvent(s: State, id: ID, e: Event): State {
    s.(events := s.events[id := EventsOf(s, id) + [e]])
  }

  function AssignNext(s: State, id: ID, owner: string, actor: string, reason: string, now: Time)
    : (State, Result<Asset, AssetError>)
  {
    if TrimSpace(owner) == "" || TrimSpace(actor) == "" then (s, Err(FieldsRequired))
    else if id !in s.assets then (s, Err(AssetNotFound))
    else
      var a := s.assets[id];
      var b := a.(owner := TrimSpace(owner), updatedAt := now);
      (WithEvent(s.(assets := s.assets[id := b]), id,
        Event(OwnerAssigned, TrimSpace(actor), None, a.owner, b.owner, TrimSpace(reason), now)), Ok(b))
  }

  function RequestNext(s: State, id: ID, newOwner: string, actor: string, reason: string, transferID: ID, now: Time)
    : (State, Result<Transfer, AssetError>)
  {
    if TrimSpace(newOwner) == "" || TrimSpace(actor) == "" then (s, Err(FieldsRequired))
    else if id !in s.assets then (s, Err(AssetNotFound))
    else if TrimSpace(s.assets[id].owner) == "" then (s, Err(NoCurrentOwner))
    else if EqualFold(s.assets[id].owner, TrimSpace(newOwner)) then (s, Err(SameOwner))
    else
      var t := Transfer(transferID, id, s.assets[id].owner, TrimSpace(newOwner), TrimSpace(actor), "",
                        TrimSpace(reason), "", Pending, now, None);
      (WithEvent(s.(transfers := s.transfers[transferID := t]), id,
        Event(TransferRequested, t.requestedBy, Some(transferID), t.fromOwner, t.toOwner, "", now)), Ok(t))
  }

  function ReviewNext(s: State, transferID: ID, approved: bool, actor: string, comment: string, now: Time)
    : (State, Result<Transfer, AssetError>)
  {
    if TrimSpace(actor) == "" then (s, Err(ActorRequired))
    else if transferID !in s.transfers then (s, Err(TransferNotFound))
    else if s.transfers[transferID].status != Pending then (s, Err(AlreadyReviewed))
    else if s.transfers[transferID].assetID !in s.assets then (s, Err(AssetNotFound))
    else
      var t := s.transfers[transferID];
      var u := t.(reviewedBy := TrimSpace(actor), comment := TrimSpace(comment), reviewedAt := Some(now),
                  status := if approved then Approved else Rejected);
      var a := s.assets[t.assetID];
      var assets := if approved then s.assets[a.id := a.(owner := t.toOwner, updatedAt := now)] else s.assets;
      (WithEvent(s.(assets := assets, transfers := s.transfers[transferID := u]), t.assetID,
        Event(if approved then TransferApproved else TransferRejected, u.reviewedBy, Some(t.id),
              t.fromOwner, t.toOwner, u.comment, now)), Ok(u))
  }

  function TagNext(s: State, id: ID, environment: string, owner: string, criticality: string, groups: seq<string>,
                   now: Time)
    : (State, Result<Asset, AssetError>)
  {
    var tags := TagOutcome(environment, owner, criticality, groups);
    if tags.Err? then (s, Err(tags.error))
    else if id !in s.assets then (s, Err(AssetNotFound))
    else
      var b := s.assets[id].(environment := tags.value.environment, owner := tags.value.owner,
                             criticality := tags.value.criticality, groups := tags.value.groups, updatedAt := now);
      (s.(assets := s.assets[id := b]), Ok(b))
  }

  // ---- Import ----

  datatype Reason = NameRequired | DuplicateExisting | DuplicateInPayload | Invalid(cause: AssetError)

  datatype Issue = Issue(index: nat, name: string, reason: Reason)

  datatype ImportResult = ImportResult(
    totalRows: nat, imported: seq<Asset>, skipped: seq<Issue>, failed: seq<Issue>)

  function Fold(row: Row): string {
    LowerTrim(row.name)
  }

  function NamesIn(assets: map<ID, Asset>): set<string> {
    set id | id in assets :: LowerTrim(assets[id].name)
  }

  datatype Fate = Imported | Skipped | Failed

  /** An earlier row, or the store before the import, already provides this row's name. */
  ghost predicate Provided(assets: map<ID, Asset>, rows: seq<Row>, i: nat)
    requires i < |rows|
  {
    Fold(rows[i]) in NamesIn(assets) || exists j :: 0 <= j < i && Valid(rows[j]) && Fold(rows[j]) == Fold(rows[i])
  }

  /** What becomes of a row, told from the store before the import and the rows before it. */
  ghost function FateOf(assets: map<ID, Asset>, rows: seq<Row>, i: nat): Fate
    requires i < |rows|
  {
    if Fold(rows[i]) == "" then Failed
    else if Provided(assets, rows, i) then Skipped
    else if Valid(rows[i]) then Imported
    else Failed
  }

  /** The report on the first `n` rows. */
  ghost function Report(assets: map<ID, Asset>, rows: seq<Row>, ids: seq<ID>, times: seq<Time>, n: nat): ImportResult
    requires n <= |rows| == |ids| == |times|
  {
    if n == 0 then ImportResult(|rows|, [], [], [])
    else
      var i := n - 1;
      var r := Report(assets, rows, ids, times, i);
      match FateOf(assets, rows, i)
      case Imported =>
        BuildMeaning(rows[i], ids[i], times[i]);
        r.(imported := r.imported + [Build(rows[i], ids[i], times[i]).value])
      case Skipped => r.(skipped := r.skipped + [Issue(i, rows[i].name, DuplicateExisting)])
      case Failed => r.(failed := r.failed + [FailureOf(rows[i], i)])
  }

  function FailureOf(row: Row, i: nat): Issue {
    if Fold(row) == "" then Issue(i, "", NameRequired)
    else if Build(row, 0, 0).Err? then Issue(i, row.name, Invalid(Build(row, 0, 0).error))
    else Issue(i, row.name, Invalid(NameExists))
  }

  /** Creating the first `n` rows one by one, ignoring the errors. */
  ghost function CreateAll(assets: map<ID, Asset>, rows: seq<Row>, ids: seq<ID>, times: seq<Time>, n: nat)
    : map<ID, Asset>
    requires n <= |rows| == |ids| == |times|
  {
    if n == 0 then assets
    else
      var before := CreateAll(assets, rows, ids, times, n - 1);
      var r := CreateOutcome(before, rows[n - 1], ids[n - 1], times[n - 1]);
      if r.Ok? then before[ids[n - 1] := r.value] else before
  }

  /** What the store keeps: an asset sits under its own id, and its name is trimmed. */
  ghost predicate NamesClean(assets: map<ID, Asset>) {
    forall id :: id in assets ==> assets[id].id == id && assets[id].name != "" && Trimmed(assets[id].name)
  }

  /** The import's name index and the scan in creation agree on which names are taken. */
  lemma IndexAgreesWithScan(assets: map<ID, Asset>, row: Row)
    requires NamesClean(assets)
    ensures NameTaken(assets, TrimSpace(row.name)) <==> Fold(row) in NamesIn(assets)
  {
  }

  lemma ValidNamesNotBlank(row: Row)
    ensures Valid(row) ==> Fold(row) != ""
    ensures Fold(row) == "" <==> TrimSpace(row.name) == ""
  {
  }

  predicate NewIDs(assets: map<ID, Asset>, ids: seq<ID>) {
    && (forall i, j :: 0 <= i < j < |ids| ==> ids[i] != ids[j])
    && (forall i :: 0 <= i < |ids| ==> ids[i] !in assets)
  }

  ghost predicate NamedSoFar(assets: map<ID, Asset>, rows: seq<Row>, i: nat, name: string)
    requires i <= |rows|
  {
    name in NamesIn(assets) || exists j :: 0 <= j < i && Valid(rows[j]) && Fold(rows[j]) == name
  }

  /** After creating the first `i` rows the folded names are those of before and those of the
      valid rows among them. */
  ghost predicate Followed(assets: map<ID, Asset>, rows: seq<Row>, ids: seq<ID>, times: seq<Time>, i: nat)
    requires i <= |rows| == |ids| == |times|
  {
    var now := CreateAll(assets, rows, ids, times, i);
    && NamesClean(now)
    && now.Keys <= assets.Keys + (set j | 0 <= j < i :: ids[j])
    && (forall name :: name in NamesIn(now) <==> NamedSoFar(assets, rows, i, name))
  }

  /** Creation accepts the next row exactly if its fate is to be imported. */
  lemma {:induction false} CreationFollowsFates(assets: map<ID, Asset>, rows: seq<Row>, ids: seq<ID>,
                                                times: seq<Time>, i: nat)
    requires i <= |rows| == |ids| == |times| && NamesClean(assets) && NewIDs(assets, ids)
    ensures Followed(assets, rows, ids, times, i)
    ensures i < |rows| ==> Next(assets, rows, ids, times, i)
  {
    hide Next, NamesClean, NewIDs, NamesIn;
    if i > 0 {
      hide Followed;
      CreationFollowsFates(assets, rows, ids, times, i - 1);
      OneMoreCreated(assets, rows, ids, times, i - 1);
    }
    if i < |rows| {
      NextRow(assets, rows, ids, times, i);
    }
  }

  ghost predicate Next(assets: map<ID, Asset>, rows: seq<Row>, ids: seq<ID>, times: seq<Time>, i: nat)
    requires i < |rows| == |ids| == |times|
  {
    var before := CreateAll(assets, rows, ids, times, i);
    var r := CreateOutcome(before, rows[i], ids[i], times[i]);
    && ids[i] !in before
    && (Provided(assets, rows, i) <==> Fold(rows[i]) in NamesIn(before))
    && (r.Ok? <==> FateOf(assets, rows, i) == Imported)
    && (r.Ok? ==> Valid(rows[i]) && r == Build(rows[i], ids[i], times[i]))
    && (FateOf(assets, rows, i) == Failed ==> r == Build(rows[i], 0, 0))
  }

  lemma NextRow(assets: map<ID, Asset>, rows: seq<Row>, ids: seq<ID>, times: seq<Time>, i: nat)
    requires i < |rows| == |ids| == |times| && NewIDs(assets, ids)
    requires Followed(assets, rows, ids, times, i)
    ensures Next(assets, rows, ids, times, i)
  {
    hide Build, NamesIn, Fold, TrimSpace;
    var before := CreateAll(assets, rows, ids, times, i);
    BuildMeaning(rows[i], ids[i], times[i]);
    ValidNamesNotBlank(rows[i]);
    IndexAgreesWithScan(before, rows[i]);
    assert Fold(rows[i]) in NamesIn(before) <==> NamedSoFar(assets, rows, i, Fold(rows[i]));
  }

  lemma OneMoreCreated(assets: map<ID, Asset>, rows: seq<Row>, ids: seq<ID>, times: seq<Time>, i: nat)
    requires i < |rows| == |ids| == |times| && NewIDs(assets, ids)
    requires Next(assets, rows, ids, times, i)
    requires Followed(assets, rows, ids, times, i)
    ensures Followed(assets, rows, ids, times, i + 1)
  {
    hide Build, NamesIn, Fold, TrimSpace, CreateOutcome;
    var before, after := CreateAll(assets, rows, ids, times, i), CreateAll(assets, rows, ids, times, i + 1);
    BuildMeaning(rows[i], ids[i], times[i]);
    assert ids[i] in (set j | 0 <= j < i + 1 :: ids[j]);
    if FateOf(assets, rows, i) == Imported {
      NamesAfter(before, ids[i], Build(rows[i], ids[i], times[i]).value, rows[i]);
    }
    hide Trimmed, NewIDs;
    forall name
      ensures name in NamesIn(after) <==> NamedSoFar(assets, rows, i + 1, name)
    {
      ValidNamesNotBlank(rows[i]);
      OneMoreNamed(assets, rows, i, name);
      assert name in NamesIn(before) <==> NamedSoFar(assets, rows, i, name);
      assert Provided(assets, rows, i) <==> NamedSoFar(assets, rows, i, Fold(rows[i]));
    }
  }

  lemma OneMoreNamed(assets: map<ID, Asset>, rows: seq<Row>, i: nat, name: string)
    requires i < |rows|
    ensures NamedSoFar(assets, rows, i + 1, name) <==>
      NamedSoFar(assets, rows, i, name) || (Valid(rows[i]) && Fold(rows[i]) == name)
  {
  }

  lemma NamesAfter(before: map<ID, Asset>, id: ID, a: Asset, row: Row)
    requires id !in before && a.name == TrimSpace(row.name)
    ensures NamesIn(before[id := a]) == NamesIn(before) + {Fold(row)}
  {
    hide ToLower, TrimSpace;
    var after := before[id := a];
    forall name
      ensures name in NamesIn(after) <==> name in NamesIn(before) || name == Fold(row)
    {
      if name in NamesIn(before) {
        var k :| k in before && LowerTrim(before[k].name) == name;
        assert after[k] == before[k];
      }
      if name == Fold(row) {
        assert TrimSpace(TrimSpace(row.name)) == TrimSpace(row.name);
        assert LowerTrim(after[id].name) == name;
      }
    }
  }

  /** One iteration of the import, branch by branch. */
  lemma ImportStep(assets: map<ID, Asset>, rows: seq<Row>, ids: seq<ID>, times: seq<Time>, i: nat)
    requires i < |rows| == |ids| == |times| && NamesClean(assets) && NewIDs(assets, ids)
    ensures var before, after := CreateAll(assets, rows, ids, times, i), CreateAll(assets, rows, ids, times, i + 1);
      var x, y := Report(assets, rows, ids, times, i), Report(assets, rows, ids, times, i + 1);
      var r := CreateOutcome(before, rows[i], ids[i], times[i]);
      && ids[i] !in before
      && if Fold(rows[i]) == "" then
           after == before && y == x.(failed := x.failed + [Issue(i, "", NameRequired)])
         else if Fold(rows[i]) in NamesIn(before) then
           after == before && y == x.(skipped := x.skipped + [Issue(i, rows[i].name, DuplicateExisting)])
         else if r.Err? then
           after == before && y == x.(failed := x.failed + [Issue(i, rows[i].name, Invalid(r.error))])
         else
           && after == before[ids[i] := r.value] && NamesIn(after) == NamesIn(before) + {Fold(rows[i])}
           && y == x.(imported := x.imported + [r.value])
  {
    hide Build, CreateOutcome, Fold, NamesIn, NamesClean, NewIDs;
    CreationFollowsFates(assets, rows, ids, times, i);
    ValidNamesNotBlank(rows[i]);
    if FateOf(assets, rows, i) == Imported {
      BuildMeaning(rows[i], ids[i], times[i]);
      NamesAfter(CreateAll(assets, rows, ids, times, i), ids[i], Build(rows[i], ids[i], times[i]).value, rows[i]);
    }
  }

  class AssetService {
    var assets: map<ID, Asset>
    var transfers: map<ID, Transfer>
    var events: map<ID, seq<Event>>

    function Contents(): State
      reads this
    {
      State(assets, transfers, events)
    }

    constructor ()
      ensures Contents() == State(map[], map[], map[])
    {
      assets, transfers, events := map[], map[], map[];
    }

    method NormalizeMetadata(entries: seq<(string, Value)>) returns (m: map<string, Value>)
      ensures m == NormalizeKeys(entries)
    {
      m := map[];
      for i := 0 to |entries|
        invariant m == NormalizeKeys(entries[..i])
      {
        assert entries[..i + 1][..i] == entries[..i];
        m := m[LowerTrim(entries[i].0) := entries[i].1];
      }
      assert entries[..|entries|] == entries;
    }

    method NormalizeTags(environment: string, owner: string, criticality: string, groups: seq<string>)
      returns (r: Result<Tags, AssetError>)
      ensures r == TagOutcome(environment, owner, criticality, groups)
    {
      hide TrimSpace, ToLower, Kept, FirstOccurrences;
      var env, crit := LowerTrim(environment), LowerTrim(criticality);
      if env != "" && env != "dev" && env != "staging" && env != "prod" {
        return Err(BadEnvironment);
      }
      if crit != "" && crit != "low" && crit != "medium" && crit != "high" && crit != "critical" {
        return Err(BadCriticality);
      }
      var normalized := Dedupe(groups, LowerTrim);
      return Ok(Tags(env, TrimSpace(owner), crit, normalized));
    }

    method CreateAsset(row: Row, id: ID, now: Time) returns (r: Result<Asset, AssetError>)
      requires id !in assets
      modifies this`assets
      ensures r == CreateOutcome(old(assets), row, id, now)
      ensures assets == if r.Ok? then old(assets)[id := r.value] else old(assets)
    {
      hide TrimSpace, ToLower, NormalizeKeys, CheckMetadata, TagOutcome, EqualFold;
      var name, assetType, host := TrimSpace(row.name), LowerTrim(row.assetType), TrimSpace(row.host);
      if name == "" || assetType == "" || host == "" {
        return Err(FieldsRequired);
      }
      var port := row.port;
      if port == 0 {
        port := DefaultPort(assetType);
      }
      if port <= 0 || port > 65535 {
        return Err(BadPort);
      }
      if |row.metadata| == 0 {
        return Err(MetadataRequired);
      }
      var normalized := NormalizeMetadata(row.metadata);
      var metadata := CheckMetadata(assetType, normalized);
      if metadata.Err? {
        return Err(metadata.error);
      }
      var tags := NormalizeTags(row.environment, row.owner, row.criticality, row.groups);
      if tags.Err? {
        return Err(tags.error);
      }
      var asset := Asset(id, name, assetType, host, port, tags.value.environment, tags.value.owner,
                         tags.value.criticality, tags.value.groups, metadata.value, now, now);
      assert Build(row, id, now) == Ok(asset);
      hide Build;
      var rest := assets.Keys;
      while rest != {}
        invariant rest <= assets.Keys
        invariant forall k :: k in assets && k !in rest ==> !EqualFold(assets[k].name, name)
        decreases rest
      {
        var k :| k in rest;
        if EqualFold(assets[k].name, asset.name) {
          return Err(NameExists);
        }
        rest := rest - {k};
      }
      assets := assets[asset.id := asset];
      return Ok(asset);
    }

    method RecordAuditEvent(assetID: ID, e: Event)
      modifies this`events
      ensures Contents() == WithEvent(old(Contents()), assetID, e)
    {
      var log: seq<Event> := if assetID in events then events[assetID] else [];
      events := events[assetID := log + [e]];
    }

    method AssignOwner(assetID: ID, newOwner: string, assigner: string, reason: string, now: Time)
      returns (r: Result<Asset, AssetError>)
      modifies this
      ensures (Contents(), r) == AssignNext(old(Contents()), assetID, newOwner, assigner, reason, now)
    {
      hide TrimSpace;
      var owner, assignedBy := TrimSpace(newOwner), TrimSpace(assigner);
      if owner == "" || assignedBy == "" {
        return Err(FieldsRequired);
      }
      if assetID !in assets {
        return Err(AssetNotFound);
      }
      var asset := assets[assetID];
      var fromOwner := asset.owner;
      asset := asset.(owner := owner);
      asset := asset.(updatedAt := now);
      assets := assets[assetID := asset];
      RecordAuditEvent(assetID, Event(OwnerAssigned, assignedBy, None, fromOwner, owner, TrimSpace(reason), now));
      return Ok(asset);
    }

    method RequestOwnershipTransfer(assetID: ID, newOwner: string, requester: string, reason: string,
                                    transferID: ID, now: Time)
      returns (r: Result<Transfer, AssetError>)
      requires transferID !in transfers
      modifies this
      ensures (Contents(), r) == RequestNext(old(Contents()), assetID, newOwner, requester, reason, transferID, now)
    {
      hide TrimSpace, EqualFold;
      var owner, requestedBy := TrimSpace(newOwner), TrimSpace(requester);
      if owner == "" || requestedBy == "" {
        return Err(FieldsRequired);
      }
      if assetID !in assets {
        return Err(AssetNotFound);
      }
      var asset := assets[assetID];
      if TrimSpace(asset.owner) == "" {
        return Err(NoCurrentOwner);
      }
      if EqualFold(asset.owner, owner) {
        return Err(SameOwner);
      }
      var transfer := Transfer(transferID, assetID, asset.owner, owner, requestedBy, "", TrimSpace(reason), "",
                               Pending, now, None);
      transfers := transfers[transfer.id := transfer];
      RecordAuditEvent(assetID, Event(TransferRequested, requestedBy, Some(transfer.id), transfer.fromOwner,
                                      transfer.toOwner, "", now));
      return Ok(transfer);
    }

    method ReviewOwnershipTransfer(transferID: ID, approved: bool, reviewer: string, comment: string, now: Time)
      returns (r: Result<Transfer, AssetError>)
      modifies this
      ensures (Contents(), r) == ReviewNext(old(Contents()), transferID, approved, reviewer, comment, now)
    {
      hide TrimSpace;
      var reviewedBy := TrimSpace(reviewer);
      if reviewedBy == "" {
        return Err(ActorRequired);
      }
      if transferID !in transfers {
        return Err(TransferNotFound);
      }
      var transfer := transfers[transferID];
      if transfer.status != Pending {
        return Err(AlreadyReviewed);
      }
      transfer := transfer.(reviewedBy := reviewedBy, comment := TrimSpace(comment), reviewedAt := Some(now));
      if transfer.assetID !in assets {
        return Err(AssetNotFound);
      }
      var asset := assets[transfer.assetID];
      var kind := TransferRejected;
      if approved {
        transfer := transfer.(status := Approved);
        asset := asset.(owner := transfer.toOwner);
        asset := asset.(updatedAt := now);
        assets := assets[asset.id := asset];
        kind := TransferApproved;
      } else {
        transfer := transfer.(status := Rejected);
      }
      transfers := transfers[transferID := transfer];
      RecordAuditEvent(transfer.assetID, Event(kind, reviewedBy, Some(transfer.id), transfer.fromOwner,
                                               transfer.toOwner, transfer.comment, now));
      return Ok(transfer);
    }

    method UpdateAssetTagging(assetID: ID, environment: string, owner: string, criticality: string,
                              groups: seq<string>, now: Time)
      returns (r: Result<Asset, AssetError>)
      modifies this`assets
      ensures (Contents(), r) == TagNext(old(Contents()), assetID, environment, owner, criticality, groups, now)
    {
      hide TagOutcome;
      var tags := NormalizeTags(environment, owner, criticality, groups);
      if tags.Err? {
        return Err(tags.error);
      }
      if assetID !in assets {
        return Err(AssetNotFound);
      }
      var asset := assets[assetID];
      asset := asset.(environment := tags.value.environment, owner := tags.value.owner,
                      criticality := tags.value.criticality, groups := tags.value.groups);
      asset := asset.(updatedAt := now);
      assets := assets[assetID := asset];
      return Ok(asset);
    }

    method ExistingNames() returns (names: set<string>)
      ensures names == NamesIn(assets)
    {
      hide LowerTrim;
      names := {};
      var rest := assets.Keys;
      while rest != {}
        invariant rest <= assets.Keys
        invariant names == set id | id in assets.Keys - rest :: LowerTrim(assets[id].name)
        decreases rest
      {
        var id :| id in rest;
        names := names + {LowerTrim(assets[id].name)};
        rest := rest - {id};
      }
    }

    /** An import that nothing interrupts. The id and the clock reading of a row are used if
        the row is created. */
    method ImportAssets(rows: seq<Row>, ids: seq<ID>, times: seq<Time>) returns (r: Result<ImportResult, AssetError>)
      requires |ids| == |times| == |rows| && NewIDs(assets, ids) && NamesClean(assets)
      modifies this`assets
      ensures NamesClean(assets)
      ensures r == if rows == [] then Err(NoRows) else Ok(Report(old(assets), rows, ids, times, |rows|))
      ensures assets == CreateAll(old(assets), rows, ids, times, |rows|)
    {
      hide Build, CreateOutcome, Fold, LowerTrim, NamesClean, NewIDs, NamesIn, CreateAll, Report;
      if |rows| == 0 {
        NothingImported(assets, rows, ids, times);
        return Err(NoRows);
      }
      ghost var before := assets;
      var imported: seq<Asset> := [];
      var skipped: seq<Issue> := [];
      var failed: seq<Issue> := [];
      var existingNames := ExistingNames();
      var batchNames: set<string> := {};
      NothingImported(assets, rows, ids, times);
      for idx := 0 to |rows|
        invariant assets == CreateAll(before, rows, ids, times, idx)
        invariant existingNames == NamesIn(assets) && batchNames <= existingNames
        invariant ImportResult(|rows|, imported, skipped, failed) == Report(before, rows, ids, times, idx)
      {
        ImportStep(before, rows, ids, times, idx);
        var row := rows[idx];
        var normalizedName := Fold(row);
        if normalizedName == "" {
          failed := failed + [Issue(idx, "", NameRequired)];
        } else if normalizedName in existingNames {
          skipped := skipped + [Issue(idx, row.name, DuplicateExisting)];
        } else if normalizedName in batchNames {
          assert false;
        } else {
          var created := CreateAsset(row, ids[idx], times[idx]);
          if created.Err? {
            failed := failed + [Issue(idx, row.name, Invalid(created.error))];
          } else {
            batchNames := batchNames + {normalizedName};
            existingNames := existingNames + {normalizedName};
            imported := imported + [created.value];
          }
        }
      }
      StillClean(before, rows, ids, times);
      return Ok(ImportResult(|rows|, imported, skipped, failed));
    }
  }

  lemma NothingImported(assets: map<ID, Asset>, rows: seq<Row>, ids: seq<ID>, times: seq<Time>)
    requires |rows| == |ids| == |times|
    ensures CreateAll(assets, rows, ids, times, 0) == assets
    ensures Report(assets, rows, ids, times, 0) == ImportResult(|rows|, [], [], [])
  {
  }

  lemma StillClean(assets: map<ID, Asset>, rows: seq<Row>, ids: seq<ID>, times: seq<Time>)
    requires |rows| == |ids| == |times| && NamesClean(assets) && NewIDs(assets, ids)
    ensures NamesClean(CreateAll(assets, rows, ids, times, |rows|))
  {
    hide NamesClean, NewIDs, NamesIn, CreateAll;
    CreationFollowsFates(assets, rows, ids, times, |rows|);
  }
}
