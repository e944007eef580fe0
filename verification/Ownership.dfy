/** Every run of the asset store: the audit log against the owners and the transfers. */
module Ownership {
  import opened Wrappers
  import opened Text
  import opened Assets

  datatype Op =
    | Create(row: Row, newID: ID, now: Time)
    | Assign(asset: ID, owner: string, actor: string, reason: string, now: Time)
    | Request(asset: ID, owner: string, actor: string, reason: string, newID: ID, now: Time)
    | Review(transfer: ID, approved: bool, actor: string, comment: string, now: Time)
    | Tag(asset: ID, environment: string, owner: string, criticality: string, groups: seq<string>, now: Time)

  ghost function Next(s: State, op: Op): State {
    match op
    case Create(row, id, now) =>
      var r := CreateOutcome(s.assets, row, id, now);
      if r.Ok? then s.(assets := s.assets[id := r.value]) else s
    case Assign(id, owner, actor, reason, now) => AssignNext(s, id, owner, actor, reason, now).0
    case Request(id, owner, actor, reason, newID, now) => RequestNext(s, id, owner, actor, reason, newID, now).0
    case Review(id, approved, actor, comment, now) => ReviewNext(s, id, approved, actor, comment, now).0
    case Tag(id, environment, owner, criticality, groups, now) =>
      TagNext(s, id, environment, owner, criticality, groups, now).0
  }

  /** Generated identifiers are new. */
  ghost predicate Legal(s: State, op: Op) {
    match op
    case Create(_, id, _) => id !in s.assets
    case Request(_, _, _, _, id, _) => id !in s.transfers
    case _ => true
  }

  const START := State(map[], map[], map[])

  ghost predicate Run(states: seq<State>, ops: seq<Op>) {
    && |states| == |ops| + 1
    && forall i :: 0 <= i < |ops| ==> Legal(states[i], ops[i]) && states[i + 1] == Next(states[i], ops[i])
  }

  // ---- The log against the transfers ----

  predicate Requests(e: Event, t: ID) {
    e.kind == TransferRequested && e.transferID == Some(t)
  }

  predicate Reviews(e: Event, t: ID) {
    (e.kind == TransferApproved || e.kind == TransferRejected) && e.transferID == Some(t)
  }

  /** The event says of the transfer what the transfer itself records. */
  ghost predicate Reflects(e: Event, x: Transfer) {
    && e.fromOwner == x.fromOwner && e.toOwner == x.toOwner
    && (e.kind == TransferRequested ==> e.actor == x.requestedBy)
    && (e.kind == TransferApproved ==> x.status == Approved && e.actor == x.reviewedBy)
    && (e.kind == TransferRejected ==> x.status == Rejected && e.actor == x.reviewedBy)
  }

  ghost predicate RequestedAt(log: seq<Event>, t: ID, i: nat) {
    i < |log| && Requests(log[i], t) && forall j :: 0 <= j < |log| && Requests(log[j], t) ==> j == i
  }

  ghost predicate ReviewedAt(log: seq<Event>, t: ID, i: nat) {
    i < |log| && Reviews(log[i], t) && forall j :: 0 <= j < |log| && Reviews(log[j], t) ==> j == i
  }

  /** The log holds one request for the transfer, and after it one review exactly if the
      transfer is no longer pending. */
  ghost predicate LoggedOnce(log: seq<Event>, x: Transfer) {
    exists i: nat :: RequestedAt(log, x.id, i) && Reflects(log[i], x)
      && if x.status == Pending then forall j :: 0 <= j < |log| ==> !Reviews(log[j], x.id)
         else exists k: nat :: i < k && ReviewedAt(log, x.id, k) && Reflects(log[k], x)
  }

  ghost predicate TransferKept(s: State, t: ID)
    requires t in s.transfers
  {
    var x := s.transfers[t];
    x.id == t && x.assetID in s.assets && LoggedOnce(EventsOf(s, x.assetID), x)
  }

  /** A log mentions only transfers of its own asset. */
  ghost predicate LogKept(log: seq<Event>, transfers: map<ID, Transfer>, id: ID) {
    forall e :: e in log && e.transferID.Some? ==>
      e.transferID.value in transfers && transfers[e.transferID.value].assetID == id
  }

  ghost predicate Inv(s: State) {
    && s.events.Keys <= s.assets.Keys
    && NamesClean(s.assets)
    && (forall t :: t in s.transfers ==> TransferKept(s, t))
    && (forall id :: LogKept(EventsOf(s, id), s.transfers, id))
  }

  // ---- The log against the owners ----

  predicate SetsOwner(e: Event) {
    e.kind == OwnerAssigned || e.kind == TransferApproved
  }

  /** The owner that a log leads to. */
  function Replay(owner: string, log: seq<Event>): string {
    if log == [] then owner
    else
      var last := log[|log| - 1];
      if SetsOwner(last) then last.toOwner else Replay(owner, log[..|log| - 1])
  }

  // ---- Steps ----

  /** An event on a new or changed transfer of an asset, appended to that asset's log. */
  lemma TransferEventKeepsInv(s: State, t: State, id: ID, e: Event, x: Transfer)
    requires Inv(s) && id in s.assets && x.assetID == id && e.transferID == Some(x.id)
    requires t.transfers == s.transfers[x.id := x] && t.events == WithEvent(s, id, e).events
    requires t.assets.Keys == s.assets.Keys && NamesClean(t.assets)
    requires x.id in s.transfers ==> s.transfers[x.id].assetID == id
    requires LoggedOnce(EventsOf(s, id) + [e], x)
    ensures Inv(t)
  {
    hide NamesClean, LoggedOnce;
    assert EventsOf(t, id) == EventsOf(s, id) + [e];
    forall k | k in t.transfers
      ensures TransferKept(t, k)
    {
      if k != x.id {
        assert TransferKept(s, k);
        if s.transfers[k].assetID == id {
          OtherEventKeepsLogged(EventsOf(s, id), s.transfers[k], e);
        }
      }
    }
    forall k
      ensures LogKept(EventsOf(t, k), t.transfers, k)
    {
      assert LogKept(EventsOf(s, k), s.transfers, k);
      assert EventsOf(t, k) == if k == id then EventsOf(s, k) + [e] else EventsOf(s, k);
    }
  }

  lemma OtherEventKeepsLogged(log: seq<Event>, x: Transfer, e: Event)
    requires LoggedOnce(log, x) && e.transferID != Some(x.id)
    ensures LoggedOnce(log + [e], x)
  {
    hide Reflects;
    var i: nat :| RequestedAt(log, x.id, i) && Reflects(log[i], x)
      && if x.status == Pending then forall j :: 0 <= j < |log| ==> !Reviews(log[j], x.id)
         else exists k: nat :: i < k && ReviewedAt(log, x.id, k) && Reflects(log[k], x);
    assert RequestedAt(log + [e], x.id, i);
    if x.status != Pending {
      var k: nat :| i < k && ReviewedAt(log, x.id, k) && Reflects(log[k], x);
      assert ReviewedAt(log + [e], x.id, k) && (log + [e])[k] == log[k];
    }
  }

  lemma FirstRequestLogged(log: seq<Event>, x: Transfer, e: Event)
    requires forall i :: 0 <= i < |log| ==> log[i].transferID != Some(x.id)
    requires x.status == Pending && Requests(e, x.id) && Reflects(e, x)
    ensures LoggedOnce(log + [e], x)
  {
    assert RequestedAt(log + [e], x.id, |log|);
  }

  lemma ReviewLogged(log: seq<Event>, x: Transfer, y: Transfer, e: Event)
    requires LoggedOnce(log, x) && x.status == Pending && y.status != Pending && y.id == x.id
    requires y.fromOwner == x.fromOwner && y.toOwner == x.toOwner && y.requestedBy == x.requestedBy
    requires Reviews(e, y.id) && Reflects(e, y)
    ensures LoggedOnce(log + [e], y)
  {
    var i: nat :| RequestedAt(log, x.id, i) && Reflects(log[i], x);
    assert RequestedAt(log + [e], y.id, i) && (log + [e])[i] == log[i];
    assert ReviewedAt(log + [e], y.id, |log|);
  }

  lemma RequestKeepsInv(s: State, op: Op)
    requires Inv(s) && op.Request? && Legal(s, op)
    ensures Inv(Next(s, op))
  {
    hide NamesClean, LoggedOnce, TrimSpace, EqualFold;
    var (t, r) := RequestNext(s, op.asset, op.owner, op.actor, op.reason, op.newID, op.now);
    if r.Ok? {
      var e := Event(TransferRequested, r.value.requestedBy, Some(op.newID),
                     r.value.fromOwner, r.value.toOwner, "", op.now);
      assert LogKept(EventsOf(s, op.asset), s.transfers, op.asset);
      FirstRequestLogged(EventsOf(s, op.asset), r.value, e);
      TransferEventKeepsInv(s, t, op.asset, e, r.value);
    }
  }

  /** What a successful review does, apart from the assets. */
  lemma ReviewOutcome(s: State, op: Op)
    requires Inv(s) && op.Review?
    requires ReviewNext(s, op.transfer, op.approved, op.actor, op.comment, op.now).1.Ok?
    ensures op.transfer in s.transfers && TransferKept(s, op.transfer)
    ensures var t, x := Next(s, op), s.transfers[op.transfer];
      && x.status == Pending && op.transfer in t.transfers
      && var y := t.transfers[op.transfer];
      && y == x.(reviewedBy := y.reviewedBy, comment := y.comment, reviewedAt := Some(op.now), status := y.status)
      && y.status == (if op.approved then Approved else Rejected)
      && t.transfers == s.transfers[op.transfer := y]
      && t.events == WithEvent(s, x.assetID, ReviewEvent(op, y)).events
  {
    hide LoggedOnce, TrimSpace, NamesClean, LogKept;
    assert TransferKept(s, op.transfer);
  }

  function ReviewEvent(op: Op, y: Transfer): Event
    requires op.Review?
  {
    Event(if op.approved then TransferApproved else TransferRejected, y.reviewedBy, Some(y.id), y.fromOwner, y.toOwner,
          y.comment, op.now)
  }

  lemma ReviewKeepsAssets(s: State, op: Op)
    requires NamesClean(s.assets) && op.Review?
    ensures Next(s, op).assets.Keys == s.assets.Keys && NamesClean(Next(s, op).assets)
  {
    hide TrimSpace, Trimmed;
  }

  lemma ReviewKeepsInv(s: State, op: Op)
    requires Inv(s) && op.Review?
    ensures Inv(Next(s, op))
  {
    hide LoggedOnce, TrimSpace;
    if ReviewNext(s, op.transfer, op.approved, op.actor, op.comment, op.now).1.Ok? {
      ReviewOutcome(s, op);
      ReviewKeepsAssets(s, op);
      hide Next, ReviewNext, NamesClean, LogKept, WithEvent;
      var t, x := Next(s, op), s.transfers[op.transfer];
      var y := t.transfers[op.transfer];
      ReviewLogged(EventsOf(s, x.assetID), x, y, ReviewEvent(op, y));
      TransferEventKeepsInv(s, t, x.assetID, ReviewEvent(op, y), y);
    }
  }

  /** An event that concerns no transfer, appended to the log of an asset. */
  lemma PlainEventKeepsInv(s: State, t: State, id: ID, e: Event)
    requires Inv(s) && id in s.assets && e.transferID == None
    requires t.transfers == s.transfers && t.events == WithEvent(s, id, e).events
    requires t.assets.Keys == s.assets.Keys && NamesClean(t.assets)
    ensures Inv(t)
  {
    hide NamesClean, LoggedOnce;
    assert EventsOf(t, id) == EventsOf(s, id) + [e];
    forall k | k in t.transfers
      ensures TransferKept(t, k)
    {
      assert TransferKept(s, k);
      if s.transfers[k].assetID == id {
        OtherEventKeepsLogged(EventsOf(s, id), s.transfers[k], e);
      }
    }
    forall k
      ensures LogKept(EventsOf(t, k), t.transfers, k)
    {
      assert LogKept(EventsOf(s, k), s.transfers, k);
      assert EventsOf(t, k) == if k == id then EventsOf(s, k) + [e] else EventsOf(s, k);
    }
  }

  lemma AssignKeepsInv(s: State, op: Op)
    requires Inv(s) && op.Assign?
    ensures Inv(Next(s, op))
  {
    hide TransferKept, LogKept, TrimSpace, Trimmed;
    var (t, r) := AssignNext(s, op.asset, op.owner, op.actor, op.reason, op.now);
    if r.Ok? {
      var e := Event(OwnerAssigned, TrimSpace(op.actor), None, s.assets[op.asset].owner, r.value.owner,
                     TrimSpace(op.reason), op.now);
      PlainEventKeepsInv(s, t, op.asset, e);
    }
  }

  /** Steps that leave transfers and events alone and lose no asset. */
  lemma AssetStepKeepsInv(s: State, t: State)
    requires Inv(s) && t.transfers == s.transfers && t.events == s.events
    requires s.assets.Keys <= t.assets.Keys && NamesClean(t.assets)
    ensures Inv(t)
  {
    hide LoggedOnce, NamesClean;
    assert forall k :: k in s.transfers ==> TransferKept(s, k);
    forall k
      ensures LogKept(EventsOf(t, k), t.transfers, k)
    {
      assert LogKept(EventsOf(s, k), s.transfers, k);
    }
  }

  lemma CreateKeepsInv(s: State, op: Op)
    requires Inv(s) && op.Create? && Legal(s, op)
    ensures Inv(Next(s, op))
  {
    hide TransferKept, LogKept, TrimSpace, NameTaken, Build;
    BuildMeaning(op.row, op.newID, op.now);
    AssetStepKeepsInv(s, Next(s, op));
  }

  lemma TagKeepsInv(s: State, op: Op)
    requires Inv(s) && op.Tag?
    ensures Inv(Next(s, op))
  {
    hide TransferKept, LogKept, TagOutcome, Trimmed;
    AssetStepKeepsInv(s, Next(s, op));
  }

  lemma StepKeepsInv(s: State, op: Op)
    requires Inv(s) && Legal(s, op)
    ensures Inv(Next(s, op))
  {
    hide Inv, Next, Legal;
    match op
    case Create(_, _, _) => CreateKeepsInv(s, op);
    case Assign(_, _, _, _, _) => AssignKeepsInv(s, op);
    case Request(_, _, _, _, _, _) => RequestKeepsInv(s, op);
    case Review(_, _, _, _, _) => ReviewKeepsInv(s, op);
    case Tag(_, _, _, _, _, _) => TagKeepsInv(s, op);
  }

  lemma {:induction false} AlwaysInv(states: seq<State>, ops: seq<Op>, i: nat)
    requires Run(states, ops) && states[0] == START && i <= |ops|
    ensures Inv(states[i])
  {
    hide Legal, Next, Inv;
    if i > 0 {
      AlwaysInv(states, ops, i - 1);
      StepKeepsInv(states[i - 1], ops[i - 1]);
    } else {
      StartInv();
    }
  }

  lemma StartInv()
    ensures Inv(START)
  {
  }

  /** In every reachable state the log of a transfer's asset, which exists, holds exactly one
      request for the transfer and, after it, exactly one review if and only if the transfer
      is no longer pending. */
  lemma TransfersAreLogged(states: seq<State>, ops: seq<Op>, i: nat, t: ID)
    requires Run(states, ops) && states[0] == START && i <= |ops| && t in states[i].transfers
    ensures var x := states[i].transfers[t];
      x.id == t && x.assetID in states[i].assets && LoggedOnce(EventsOf(states[i], x.assetID), x)
  {
    hide Legal, Next, LoggedOnce;
    AlwaysInv(states, ops, i);
    assert TransferKept(states[i], t);
  }

  /** Reviewing a pending transfer never finds its asset missing. */
  lemma ReviewFindsTheAsset(states: seq<State>, ops: seq<Op>, i: nat, t: ID, approved: bool,
                            actor: string, comment: string, now: Time)
    requires Run(states, ops) && states[0] == START && i <= |ops| && t in states[i].transfers
    ensures ReviewNext(states[i], t, approved, actor, comment, now).1.Ok? <==>
      TrimSpace(actor) != "" && states[i].transfers[t].status == Pending
  {
    hide Legal, Next, LoggedOnce, TrimSpace;
    TransfersAreLogged(states, ops, i, t);
  }

  // ---- What each step does ----

  ghost predicate AssignAccepted(s: State, op: Op)
    requires op.Assign?
  {
    TrimSpace(op.owner) != "" && TrimSpace(op.actor) != "" && op.asset in s.assets
  }

  /** An assignment with an owner, an actor and an existing asset gives the asset that owner and logs
      it with the previous one; any other changes nothing. */
  lemma AssignmentOutcome(s: State, op: Op)
    requires op.Assign?
    ensures var t := Next(s, op);
      && (!AssignAccepted(s, op) ==> t == s)
      && (AssignAccepted(s, op) ==>
        && t.transfers == s.transfers && t.assets.Keys == s.assets.Keys
        && t.assets[op.asset] == s.assets[op.asset].(owner := TrimSpace(op.owner), updatedAt := op.now)
        && (forall id :: id in s.assets && id != op.asset ==> t.assets[id] == s.assets[id])
        && (forall id :: id != op.asset ==> EventsOf(t, id) == EventsOf(s, id))
        && EventsOf(t, op.asset) == EventsOf(s, op.asset) +
          [Event(OwnerAssigned, TrimSpace(op.actor), None, s.assets[op.asset].owner, TrimSpace(op.owner),
                 TrimSpace(op.reason), op.now)])
  {
    hide TrimSpace;
  }

  ghost predicate RequestAccepted(s: State, op: Op)
    requires op.Request?
  {
    && TrimSpace(op.owner) != "" && TrimSpace(op.actor) != "" && op.asset in s.assets
    && TrimSpace(s.assets[op.asset].owner) != "" && !EqualFold(s.assets[op.asset].owner, TrimSpace(op.owner))
  }

  /** The transfer is from the owner that the asset had at the request, to the one asked for. */
  ghost predicate AskedFor(s: State, op: Op, x: Transfer)
    requires op.Request? && op.asset in s.assets
  {
    && x.id == op.newID && x.assetID == op.asset
    && x.fromOwner == s.assets[op.asset].owner && x.toOwner == TrimSpace(op.owner)
    && x.requestedBy == TrimSpace(op.actor) && x.reason == TrimSpace(op.reason) && x.requestedAt == op.now
  }

  /** A request for another owner than the present one makes a pending transfer and logs it; any
      other changes nothing. */
  lemma RequestOutcome(s: State, op: Op)
    requires op.Request? && Legal(s, op)
    ensures var t := Next(s, op);
      && (!RequestAccepted(s, op) ==> t == s)
      && (RequestAccepted(s, op) ==>
        && op.newID in t.transfers && AskedFor(s, op, t.transfers[op.newID]) && t.assets == s.assets
        && t.transfers[op.newID].status == Pending && t.transfers[op.newID].reviewedAt == None
        && t.transfers == s.transfers[op.newID := t.transfers[op.newID]]
        && (forall id :: id != op.asset ==> EventsOf(t, id) == EventsOf(s, id))
        && EventsOf(t, op.asset) == EventsOf(s, op.asset) +
          [Event(TransferRequested, TrimSpace(op.actor), Some(op.newID), s.assets[op.asset].owner, TrimSpace(op.owner),
                 "", op.now)])
  {
    hide TrimSpace, EqualFold;
  }

  ghost predicate ReviewAccepted(s: State, op: Op)
    requires op.Review?
  {
    TrimSpace(op.actor) != "" && op.transfer in s.transfers && s.transfers[op.transfer].status == Pending
  }

  /** A review of a pending transfer decides it on its own terms: approval gives the asset the owner
      that the transfer names, rejection leaves the assets alone. Any other review changes nothing. */
  lemma ReviewDecides(s: State, op: Op)
    requires Inv(s) && op.Review?
    ensures var t := Next(s, op);
      && (!ReviewAccepted(s, op) ==> t == s)
      && (ReviewAccepted(s, op) ==>
        && op.transfer in t.transfers
        && var x, y := s.transfers[op.transfer], t.transfers[op.transfer];
        && y == x.(status := if op.approved then Approved else Rejected, reviewedBy := TrimSpace(op.actor),
                   comment := TrimSpace(op.comment), reviewedAt := Some(op.now))
        && t.transfers == s.transfers[op.transfer := y]
        && x.assetID in s.assets && x.assetID in t.assets
        && (op.approved ==>
          t.assets == s.assets[x.assetID := s.assets[x.assetID].(owner := x.toOwner, updatedAt := op.now)])
        && (!op.approved ==> t.assets == s.assets))
  {
    hide TrimSpace, LoggedOnce, LogKept;
    if op.transfer in s.transfers {
      assert TransferKept(s, op.transfer);
    }
  }

  /** The log of the transfer's asset, and no other, gets one entry: the reviewer's decision on the
      transfer, from its old owner to its new one. */
  lemma ReviewIsLogged(s: State, op: Op)
    requires Inv(s) && op.Review? && ReviewAccepted(s, op)
    ensures var t, x := Next(s, op), s.transfers[op.transfer];
      && (forall id :: id != x.assetID ==> EventsOf(t, id) == EventsOf(s, id))
      && EventsOf(t, x.assetID) == EventsOf(s, x.assetID) +
        [Event(if op.approved then TransferApproved else TransferRejected, TrimSpace(op.actor), Some(op.transfer),
               x.fromOwner, x.toOwner, TrimSpace(op.comment), op.now)]
  {
    hide TrimSpace, LoggedOnce, LogKept;
    assert TransferKept(s, op.transfer);
  }

  /** Tagging an existing asset with acceptable tags overwrites its four tags, the owner among them,
      and nothing else; any other tagging changes nothing. */
  lemma TaggingOutcome(s: State, op: Op)
    requires op.Tag?
    ensures var t, tags := Next(s, op), TagOutcome(op.environment, op.owner, op.criticality, op.groups);
      && (tags.Err? || op.asset !in s.assets ==> t == s)
      && (tags.Ok? && op.asset in s.assets ==>
        && t.transfers == s.transfers && t.events == s.events && t.assets.Keys == s.assets.Keys
        && (forall id :: id in s.assets && id != op.asset ==> t.assets[id] == s.assets[id])
        && var a, b := s.assets[op.asset], t.assets[op.asset];
        && Tags(b.environment, b.owner, b.criticality, b.groups) == tags.value && b.updatedAt == op.now
        && b == a.(environment := b.environment, owner := b.owner, criticality := b.criticality,
                   groups := b.groups, updatedAt := b.updatedAt))
  {
    hide TagOutcome;
  }

  // ---- Names over runs ----

  ghost predicate NamesDistinct(assets: map<ID, Asset>) {
    forall a, b :: a in assets && b in assets && a != b ==> !EqualFold(assets[a].name, assets[b].name)
  }

  ghost predicate NamesFollow(s: State, t: State) {
    forall id :: id in t.assets ==> id in s.assets && t.assets[id].name == s.assets[id].name
  }

  lemma ReviewKeepsNames(s: State, op: Op)
    requires NamesClean(s.assets) && op.Review?
    ensures NamesFollow(s, Next(s, op))
  {
    hide TrimSpace, Trimmed;
  }

  lemma OtherStepsKeepNames(s: State, op: Op)
    requires NamesClean(s.assets) && !op.Create?
    ensures NamesFollow(s, Next(s, op))
  {
    hide TrimSpace, EqualFold, TagOutcome, NamesClean, ReviewNext;
    if op.Review? {
      ReviewKeepsNames(s, op);
    }
  }

  lemma CreateKeepsDistinct(assets: map<ID, Asset>, row: Row, id: ID, now: Time)
    requires NamesDistinct(assets) && CreateOutcome(assets, row, id, now).Ok?
    ensures NamesDistinct(assets[id := CreateOutcome(assets, row, id, now).value])
  {
    hide ToLower, Build;
  }

  /** No two assets ever have the same name up to case. */
  lemma {:induction false} AssetNamesStayDistinct(states: seq<State>, ops: seq<Op>, i: nat)
    requires Run(states, ops) && states[0] == START && i <= |ops|
    ensures NamesDistinct(states[i].assets)
  {
    hide Legal, TransferKept, LogKept, EqualFold, CreateOutcome;
    if i > 0 {
      AssetNamesStayDistinct(states, ops, i - 1);
      AlwaysInv(states, ops, i - 1);
      var s, op := states[i - 1], ops[i - 1];
      if op.Create? {
        if CreateOutcome(s.assets, op.row, op.newID, op.now).Ok? {
          CreateKeepsDistinct(s.assets, op.row, op.newID, op.now);
        }
      } else {
        assert NamesClean(s.assets);
        OtherStepsKeepNames(s, op);
        hide Next;
      }
    }
  }

  // ---- Owners over runs ----

  ghost predicate OwnerAfter(s: State, t: State, id: ID, e: Event)
    requires id in s.assets && id in t.assets
  {
    && EventsOf(t, id) == EventsOf(s, id) + [e]
    && t.assets[id].owner == if SetsOwner(e) then e.toOwner else s.assets[id].owner
  }

  predicate TagSucceeds(s: State, op: Op)
    requires op.Tag?
  {
    TagNext(s, op.asset, op.environment, op.owner, op.criticality, op.groups, op.now).1.Ok?
  }

  /** One step on one asset: its log grows by at most one event, which sets its owner exactly
      if the owner may have changed. */
  ghost predicate OwnerFollows(s: State, t: State, id: ID)
    requires id in s.assets
  {
    && id in t.assets
    && if EventsOf(t, id) == EventsOf(s, id) then t.assets[id].owner == s.assets[id].owner
       else exists e :: OwnerAfter(s, t, id, e)
  }

  /** An event was logged for one asset, and the other assets kept their owners. */
  lemma EventFollows(s: State, t: State, on: ID, e: Event, id: ID)
    requires id in s.assets && on in s.assets && t.events == WithEvent(s, on, e).events
    requires on in t.assets && t.assets == s.assets[on := t.assets[on]]
    requires t.assets[on].owner == if SetsOwner(e) then e.toOwner else s.assets[on].owner
    ensures OwnerFollows(s, t, id)
  {
    hide SetsOwner;
    if id == on {
      assert OwnerAfter(s, t, id, e);
    }
  }

  lemma AssignFollows(s: State, op: Op, id: ID)
    requires op.Assign? && id in s.assets
    ensures OwnerFollows(s, Next(s, op), id)
  {
    hide TrimSpace, OwnerFollows;
    var (t, r) := AssignNext(s, op.asset, op.owner, op.actor, op.reason, op.now);
    if r.Ok? {
      EventFollows(s, t, op.asset, t.events[op.asset][|EventsOf(s, op.asset)|], id);
    } else {
      QuietFollows(s, t, id);
    }
  }

  lemma StepOwnerFollows(s: State, op: Op, id: ID)
    requires Inv(s) && Legal(s, op) && id in s.assets
    requires op.Tag? && op.asset == id ==> !TagSucceeds(s, op)
    ensures OwnerFollows(s, Next(s, op), id)
  {
    hide LogKept, TransferKept, NamesClean, EqualFold, CreateOutcome, OwnerFollows, TagOutcome;
    match op
    case Create(_, _, _) => QuietFollows(s, Next(s, op), id);
    case Assign(_, _, _, _, _) => AssignFollows(s, op, id);
    case Request(_, _, _, _, _, _) => RequestFollows(s, op, id);
    case Review(_, _, _, _, _) => ReviewFollows(s, op, id);
    case Tag(_, _, _, _, _, _) => QuietFollows(s, Next(s, op), id);
  }

  lemma QuietFollows(s: State, t: State, id: ID)
    requires id in s.assets && id in t.assets && t.events == s.events && t.assets[id] == s.assets[id]
    ensures OwnerFollows(s, t, id)
  {
  }

  lemma RequestFollows(s: State, op: Op, id: ID)
    requires op.Request? && id in s.assets
    ensures OwnerFollows(s, Next(s, op), id)
  {
    hide TrimSpace, EqualFold, OwnerFollows;
    var (t, r) := RequestNext(s, op.asset, op.owner, op.actor, op.reason, op.newID, op.now);
    if r.Ok? {
      assert t.assets == s.assets[op.asset := s.assets[op.asset]];
      EventFollows(s, t, op.asset, t.events[op.asset][|EventsOf(s, op.asset)|], id);
    } else {
      QuietFollows(s, t, id);
    }
  }

  /** What a successful review does to the assets: approval moves one of them to its new owner. */
  lemma ReviewMovesOwner(s: State, op: Op)
    requires NamesClean(s.assets) && op.Review?
    requires ReviewNext(s, op.transfer, op.approved, op.actor, op.comment, op.now).1.Ok?
    ensures op.transfer in s.transfers
    ensures var x, t := s.transfers[op.transfer], Next(s, op);
      && x.assetID in s.assets && x.assetID in t.assets && t.assets == s.assets[x.assetID := t.assets[x.assetID]]
      && t.assets[x.assetID].owner == if op.approved then x.toOwner else s.assets[x.assetID].owner
  {
    hide TrimSpace, Trimmed;
  }

  lemma ReviewFollows(s: State, op: Op, id: ID)
    requires Inv(s) && op.Review? && id in s.assets
    ensures OwnerFollows(s, Next(s, op), id)
  {
    hide TrimSpace, OwnerFollows, LogKept, LoggedOnce, NamesClean, WithEvent;
    if ReviewNext(s, op.transfer, op.approved, op.actor, op.comment, op.now).1.Ok? {
      ReviewOutcome(s, op);
      ReviewMovesOwner(s, op);
      hide Next, ReviewNext, Inv, TransferKept;
      var t, x := Next(s, op), s.transfers[op.transfer];
      EventFollows(s, t, x.assetID, ReviewEvent(op, t.transfers[op.transfer]), id);
    } else {
      QuietFollows(s, Next(s, op), id);
    }
  }

  lemma ReplayOneMore(owner: string, log: seq<Event>, e: Event)
    ensures Replay(owner, log + [e]) == if SetsOwner(e) then e.toOwner else Replay(owner, log)
  {
  }

  /** Step `k` re-tags the asset. */
  ghost predicate Retags(states: seq<State>, ops: seq<Op>, k: nat, id: ID)
    requires Run(states, ops) && k < |ops|
  {
    ops[k].Tag? && ops[k].asset == id && TagSucceeds(states[k], ops[k])
  }

  /** Step `k` logs an event that sets the owner of the asset. */
  ghost predicate LogsOwner(states: seq<State>, ops: seq<Op>, k: nat, id: ID)
    requires Run(states, ops) && k < |ops|
  {
    var before, after := EventsOf(states[k], id), EventsOf(states[k + 1], id);
    |before| < |after| && SetsOwner(after[|after| - 1])
  }

  /** Step `k` re-tags the asset, and neither a tag nor a logged owner follows before `j`. */
  ghost predicate LastTag(states: seq<State>, ops: seq<Op>, k: nat, j: nat, id: ID)
    requires Run(states, ops) && k < j <= |ops|
  {
    Retags(states, ops, k, id) && forall l :: k < l < j ==>
      !Retags(states, ops, l, id) && !LogsOwner(states, ops, l, id)
  }

  /** The owner of an asset at a later point, in any run: the one named by the last tag if that
      came after the last logged owner, else the one the log since then leads to. */
  ghost predicate OwnerExplained(states: seq<State>, ops: seq<Op>, i: nat, j: nat, id: ID)
    requires Run(states, ops) && i <= j <= |ops| && id in states[i].assets
  {
    && id in states[j].assets && EventsOf(states[i], id) <= EventsOf(states[j], id)
    && (forall k :: i <= k < j && LastTag(states, ops, k, j, id) ==>
      states[j].assets[id].owner == TrimSpace(ops[k].owner))
    && ((forall k :: i <= k < j ==> !LastTag(states, ops, k, j, id)) ==>
      states[j].assets[id].owner == ReplayedSince(states, i, j, id))
  }

  /** The owner that the log tells at `j`, from the owner known at `i`. */
  function ReplayedSince(states: seq<State>, i: nat, j: nat, id: ID): string
    requires i <= j < |states| && id in states[i].assets
    requires EventsOf(states[i], id) <= EventsOf(states[j], id)
  {
    Replay(states[i].assets[id].owner, EventsOf(states[j], id)[|EventsOf(states[i], id)|..])
  }

  lemma TagStepSets(s: State, op: Op)
    requires op.Tag? && op.asset in s.assets && TagSucceeds(s, op)
    ensures var t := Next(s, op);
      t.events == s.events && op.asset in t.assets && t.assets[op.asset].owner == TrimSpace(op.owner)
  {
    hide TrimSpace;
  }

  /** No earlier tag is still the last one once step `j - 1` re-tags or logs an owner. */
  lemma Overridden(states: seq<State>, ops: seq<Op>, k: nat, j: nat, id: ID)
    requires Run(states, ops) && k < j - 1 && j <= |ops|
    requires Retags(states, ops, j - 1, id) || LogsOwner(states, ops, j - 1, id)
    ensures !LastTag(states, ops, k, j, id)
  {
    hide Retags, LogsOwner, Run;
  }

  lemma StillLast(states: seq<State>, ops: seq<Op>, k: nat, j: nat, id: ID)
    requires Run(states, ops) && k < j - 1 && j <= |ops|
    requires !Retags(states, ops, j - 1, id) && !LogsOwner(states, ops, j - 1, id)
    ensures LastTag(states, ops, k, j, id) <==> LastTag(states, ops, k, j - 1, id)
  {
    hide Retags, LogsOwner, Run;
  }

  lemma TagIsLast(states: seq<State>, ops: seq<Op>, j: nat, id: ID)
    requires Run(states, ops) && 0 < j <= |ops| && Retags(states, ops, j - 1, id)
    ensures LastTag(states, ops, j - 1, j, id)
  {
    hide Run, Retags;
  }

  /** What a re-tagging step does to the asset. */
  lemma RetagOutcome(states: seq<State>, ops: seq<Op>, j: nat, id: ID)
    requires Run(states, ops) && 0 < j <= |ops| && Retags(states, ops, j - 1, id) && id in states[j - 1].assets
    ensures EventsOf(states[j], id) == EventsOf(states[j - 1], id)
    ensures id in states[j].assets && states[j].assets[id].owner == TrimSpace(ops[j - 1].owner)
  {
    hide Legal, TrimSpace, TagSucceeds;
    assert states[j] == Next(states[j - 1], ops[j - 1]);
    TagStepSets(states[j - 1], ops[j - 1]);
  }

  lemma OnlyTagLast(states: seq<State>, ops: seq<Op>, i: nat, j: nat, id: ID)
    requires Run(states, ops) && i < j <= |ops| && Retags(states, ops, j - 1, id)
    ensures forall k :: i <= k < j ==> (LastTag(states, ops, k, j, id) <==> k == j - 1)
  {
    hide Run, Retags, LogsOwner, LastTag;
    TagIsLast(states, ops, j, id);
    forall k | i <= k < j - 1
      ensures !LastTag(states, ops, k, j, id)
    {
      Overridden(states, ops, k, j, id);
    }
  }

  lemma ExplainedByTag(states: seq<State>, ops: seq<Op>, i: nat, j: nat, id: ID)
    requires Run(states, ops) && i < j <= |ops| && id in states[i].assets
    requires OwnerExplained(states, ops, i, j - 1, id) && Retags(states, ops, j - 1, id)
    ensures OwnerExplained(states, ops, i, j, id)
  {
    hide Legal, Next, Retags, LogsOwner, TrimSpace, LastTag, EventsOf, ReplayedSince;
    RetagOutcome(states, ops, j, id);
    OnlyTagLast(states, ops, i, j, id);
    assert LastTag(states, ops, j - 1, j, id);
  }

  /** Nothing changed for the asset, neither in its log nor in its owner. */
  lemma ExplainedByQuietStep(states: seq<State>, ops: seq<Op>, i: nat, j: nat, id: ID)
    requires Run(states, ops) && i < j <= |ops| && id in states[i].assets
    requires OwnerExplained(states, ops, i, j - 1, id) && !Retags(states, ops, j - 1, id)
    requires EventsOf(states[j], id) == EventsOf(states[j - 1], id)
    requires id in states[j].assets && states[j].assets[id].owner == states[j - 1].assets[id].owner
    ensures OwnerExplained(states, ops, i, j, id)
  {
    hide Run, Retags, TrimSpace, LastTag, SetsOwner;
    NoTagNotLast(states, ops, j, id);
    StillLastAll(states, ops, i, j, id);
  }

  /** One more event in the log, and what it does to the owner that the log tells. */
  lemma EventReplayed(states: seq<State>, i: nat, j: nat, id: ID, e: Event)
    requires i < j < |states| && id in states[i].assets && EventsOf(states[i], id) <= EventsOf(states[j - 1], id)
    requires EventsOf(states[j], id) == EventsOf(states[j - 1], id) + [e]
    ensures EventsOf(states[i], id) <= EventsOf(states[j], id)
    ensures ReplayedSince(states, i, j, id) == if SetsOwner(e) then e.toOwner else ReplayedSince(states, i, j - 1, id)
  {
    hide SetsOwner;
    var n, before := |EventsOf(states[i], id)|, EventsOf(states[j - 1], id);
    assert EventsOf(states[j], id)[n..] == before[n..] + [e];
    ReplayOneMore(states[i].assets[id].owner, before[n..], e);
  }

  /** No tag is still the last one after a step that logs an owner. */
  lemma NoneLast(states: seq<State>, ops: seq<Op>, i: nat, j: nat, id: ID)
    requires Run(states, ops) && i < j <= |ops|
    requires !Retags(states, ops, j - 1, id) && LogsOwner(states, ops, j - 1, id)
    ensures forall k :: i <= k < j ==> !LastTag(states, ops, k, j, id)
  {
    hide Run, Retags, LogsOwner, LastTag;
    NoTagNotLast(states, ops, j, id);
    forall k | i <= k < j - 1
      ensures !LastTag(states, ops, k, j, id)
    {
      Overridden(states, ops, k, j, id);
    }
  }

  lemma EventLogsOwner(states: seq<State>, ops: seq<Op>, j: nat, id: ID, e: Event)
    requires Run(states, ops) && 0 < j <= |ops|
    requires EventsOf(states[j], id) == EventsOf(states[j - 1], id) + [e]
    ensures LogsOwner(states, ops, j - 1, id) <==> SetsOwner(e)
  {
    hide Legal, Next, SetsOwner;
  }

  /** One event was logged for the asset. */
  lemma ExplainedByEvent(states: seq<State>, ops: seq<Op>, i: nat, j: nat, id: ID, e: Event)
    requires Run(states, ops) && i < j <= |ops| && id in states[i].assets
    requires OwnerExplained(states, ops, i, j - 1, id) && !Retags(states, ops, j - 1, id)
    requires id in states[j].assets && OwnerAfter(states[j - 1], states[j], id, e)
    ensures OwnerExplained(states, ops, i, j, id)
  {
    hide Legal, Next, Retags, LogsOwner, TrimSpace, LastTag, SetsOwner, EventsOf, ReplayedSince;
    EventReplayed(states, i, j, id, e);
    EventLogsOwner(states, ops, j, id, e);
    hide Run;
    if SetsOwner(e) {
      NoneLast(states, ops, i, j, id);
    } else {
      NoTagNotLast(states, ops, j, id);
      StillLastAll(states, ops, i, j, id);
    }
  }

  lemma ExplainedByStep(states: seq<State>, ops: seq<Op>, i: nat, j: nat, id: ID)
    requires Run(states, ops) && i < j <= |ops| && id in states[i].assets && Inv(states[j - 1])
    requires OwnerExplained(states, ops, i, j - 1, id) && !Retags(states, ops, j - 1, id)
    ensures OwnerExplained(states, ops, i, j, id)
  {
    hide Next, Inv, OwnerExplained, TagSucceeds;
    IsThere(states, ops, i, j - 1, id);
    assert Legal(states[j - 1], ops[j - 1]) && states[j] == Next(states[j - 1], ops[j - 1]);
    StepOwnerFollows(states[j - 1], ops[j - 1], id);
    if EventsOf(states[j], id) == EventsOf(states[j - 1], id) {
      ExplainedByQuietStep(states, ops, i, j, id);
    } else {
      var e :| OwnerAfter(states[j - 1], states[j], id, e);
      ExplainedByEvent(states, ops, i, j, id, e);
    }
  }

  lemma IsThere(states: seq<State>, ops: seq<Op>, i: nat, j: nat, id: ID)
    requires Run(states, ops) && i <= j <= |ops| && id in states[i].assets && OwnerExplained(states, ops, i, j, id)
    ensures id in states[j].assets
  {
    hide Run, LastTag, TrimSpace;
  }

  lemma NoTagNotLast(states: seq<State>, ops: seq<Op>, j: nat, id: ID)
    requires Run(states, ops) && 0 < j <= |ops| && !Retags(states, ops, j - 1, id)
    ensures !LastTag(states, ops, j - 1, j, id)
  {
    hide Run, Retags, LogsOwner;
  }

  lemma StillLastAll(states: seq<State>, ops: seq<Op>, i: nat, j: nat, id: ID)
    requires Run(states, ops) && i < j <= |ops|
    requires !Retags(states, ops, j - 1, id) && !LogsOwner(states, ops, j - 1, id)
    ensures forall k {:trigger LastTag(states, ops, k, j, id)} {:trigger LastTag(states, ops, k, j - 1, id)} ::
      i <= k < j - 1 ==> (LastTag(states, ops, k, j, id) <==> LastTag(states, ops, k, j - 1, id))
  {
    hide Run, Retags, LogsOwner, LastTag;
    forall k | i <= k < j - 1
      ensures LastTag(states, ops, k, j, id) <==> LastTag(states, ops, k, j - 1, id)
    {
      StillLast(states, ops, k, j, id);
    }
  }

  lemma {:induction false} OwnersAreExplained(states: seq<State>, ops: seq<Op>, i: nat, j: nat, id: ID)
    requires Run(states, ops) && states[0] == START && i <= j <= |ops| && id in states[i].assets
    ensures OwnerExplained(states, ops, i, j, id)
  {
    hide Legal, Next, Inv, SetsOwner, Retags, LastTag;
    if i < j {
      OwnersAreExplained(states, ops, i, j - 1, id);
      AlwaysInv(states, ops, j - 1);
      hide OwnerExplained;
      if Retags(states, ops, j - 1, id) {
        ExplainedByTag(states, ops, i, j, id);
      } else {
        ExplainedByStep(states, ops, i, j, id);
      }
    } else {
      assert EventsOf(states[i], id)[|EventsOf(states[i], id)|..] == [];
    }
  }

  /** In every run, re-tagging included, the log since any earlier point tells the owner of an
      asset if and only if no tag came after the last logged owner, or the last such tag names
      the very owner that the log tells. */
  lemma OwnerReplaysTheLog(states: seq<State>, ops: seq<Op>, i: nat, j: nat, id: ID)
    requires Run(states, ops) && states[0] == START && i <= j <= |ops| && id in states[i].assets
    ensures id in states[j].assets && EventsOf(states[i], id) <= EventsOf(states[j], id)
    ensures states[j].assets[id].owner == ReplayedSince(states, i, j, id) <==>
      forall k :: i <= k < j && LastTag(states, ops, k, j, id) ==>
        TrimSpace(ops[k].owner) == ReplayedSince(states, i, j, id)
  {
    hide Run, LastTag, TrimSpace, ReplayedSince;
    OwnersAreExplained(states, ops, i, j, id);
  }

  /** Logs are append-only over every run, re-tagging included. */
  lemma {:induction false} LogIsAppendOnly(states: seq<State>, ops: seq<Op>, i: nat, j: nat, id: ID)
    requires Run(states, ops) && i <= j <= |ops|
    ensures EventsOf(states[i], id) <= EventsOf(states[j], id)
  {
    hide Legal, Next;
    if i < j {
      LogIsAppendOnly(states, ops, i, j - 1, id);
      StepAppends(states[j - 1], ops[j - 1], id);
    }
  }

  lemma StepAppends(s: State, op: Op, id: ID)
    ensures EventsOf(s, id) <= EventsOf(Next(s, op), id)
  {
    hide TrimSpace, EqualFold, CreateOutcome, TagOutcome;
  }

  /** A new asset starts with an empty log and the owner of its row. */
  lemma CreationStartsTheLog(states: seq<State>, ops: seq<Op>, i: nat)
    requires Run(states, ops) && states[0] == START && i < |ops| && ops[i].Create?
    requires CreateOutcome(states[i].assets, ops[i].row, ops[i].newID, ops[i].now).Ok?
    ensures ops[i].newID in states[i + 1].assets && EventsOf(states[i + 1], ops[i].newID) == []
    ensures states[i + 1].assets[ops[i].newID].owner == TrimSpace(ops[i].row.owner)
  {
    hide Build, NameTaken, NamesClean, TransferKept, LogKept;
    AlwaysInv(states, ops, i);
    BuildMeaning(ops[i].row, ops[i].newID, ops[i].now);
  }

  /** Re-tagging is not logged: right after it the log since any earlier point tells the owner if
      and only if the tags name the owner that the log tells, whatever the owner was before. */
  lemma RetaggingIsUnlogged(states: seq<State>, ops: seq<Op>, i: nat, j: nat, id: ID)
    requires Run(states, ops) && states[0] == START && i < j <= |ops| && id in states[i].assets
    requires Retags(states, ops, j - 1, id)
    ensures id in states[j].assets && EventsOf(states[i], id) <= EventsOf(states[j], id)
    ensures EventsOf(states[j], id) == EventsOf(states[j - 1], id)
    ensures states[j].assets[id].owner == ReplayedSince(states, i, j, id) <==>
      TrimSpace(ops[j - 1].owner) == ReplayedSince(states, i, j, id)
  {
    hide TrimSpace, ReplayedSince, LastTag, TagSucceeds;
    TagIsLast(states, ops, j, id);
    OwnersAreExplained(states, ops, i, j, id);
    OwnersAreExplained(states, ops, i, j - 1, id);
    TagStepSets(states[j - 1], ops[j - 1]);
  }

  /** The log can be wrong about the owner: for any valid row and any other owner, creating the
      asset and re-tagging it ends with an owner that the log does not tell. */
  lemma TheLogCanMissTheOwner(row: Row, owner: string) returns (states: seq<State>, ops: seq<Op>)
    requires Valid(row) && TrimSpace(owner) != TrimSpace(row.owner)
    ensures Run(states, ops) && states[0] == START && |ops| == 2
    ensures 0 in states[1].assets && 0 in states[2].assets && EventsOf(states[1], 0) == EventsOf(states[2], 0) == []
    ensures states[2].assets[0].owner != ReplayedSince(states, 1, 2, 0)
  {
    hide Next, TagSucceeds, Valid, TrimSpace;
    var s1 := FirstAsset(row);
    var tag := Tag(0, "", owner, "", [], 0);
    BareTagSucceeds(s1, 0, owner);
    TagStepSets(s1, tag);
    ops := [Create(row, 0, 0), tag];
    states := [START, s1, Next(s1, tag)];
    assert ReplayedSince(states, 1, 2, 0) == s1.assets[0].owner;
  }

  lemma FirstAsset(row: Row) returns (s: State)
    requires Valid(row)
    ensures s == Next(START, Create(row, 0, 0)) && s.events == map[]
    ensures 0 in s.assets && s.assets[0].owner == TrimSpace(row.owner)
  {
    BuildMeaning(row, 0, 0);
    hide TrimSpace, Build, Valid;
    s := State(map[0 := Build(row, 0, 0).value], map[], map[]);
  }

  lemma BareTagSucceeds(s: State, id: ID, owner: string)
    requires id in s.assets
    ensures TagSucceeds(s, Tag(id, "", owner, "", [], 0))
  {
    assert LowerTrim("") == "";
  }
}
