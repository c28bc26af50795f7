/** Telemetry buckets: created with a runtime, recorded in the workspace, deleted with the runtime. */
module BucketOwnership {
  import opened Numbers

  type Bucket = string
  type RuntimeId = string

  /** The database; somebody else may own buckets in it too. */
  class Database {
    var existing: set<Bucket>

    constructor (existing: set<Bucket>)
      ensures this.existing == existing
    {
      this.existing := existing;
    }

    /** Whether the bucket had to be created. */
    method EnsureBucket(bucket: Bucket) returns (created: bool)
      modifies this
      ensures created == (bucket !in old(existing)) && existing == old(existing) + {bucket}
    {
      created := bucket !in existing;
      existing := existing + {bucket};
    }

    /** Deleting a bucket that is gone already is no failure. */
    method DeleteBucket(bucket: Bucket, answers: bool) returns (ok: bool)
      modifies this
      ensures ok == answers && existing == if answers then old(existing) - {bucket} else old(existing)
    {
      if answers { existing := existing - {bucket}; }
      return answers;
    }
  }

  /** The owner of every bucket whose creation this workspace has confirmed. */
  class ManagedBucketRegistry {
    var buckets: map<Bucket, RuntimeId>

    constructor ()
      ensures buckets == map[]
    {
      buckets := map[];
    }

    method RecordCreated(bucket: Bucket, id: RuntimeId)
      modifies this
      ensures buckets == if bucket in old(buckets) then old(buckets) else old(buckets)[bucket := id]
    {
      if bucket in buckets { return; }
      buckets := buckets[bucket := id];
    }

    method ActiveForRuntime(id: RuntimeId) returns (active: seq<Bucket>)
      ensures forall b :: b in active <==> b in buckets && buckets[b] == id
      ensures NoDuplicates(active)
    {
      active := [];
      var left := set b | b in buckets && buckets[b] == id;
      while left != {}
        invariant forall b :: b in left ==> b in buckets && buckets[b] == id && b !in active
        invariant forall b :: b in active ==> b in buckets && buckets[b] == id
        invariant forall b :: b in buckets && buckets[b] == id ==> b in left || b in active
        invariant NoDuplicates(active)
        decreases left
      {
        var b :| b in left;
        left, active := left - {b}, active + [b];
      }
    }

    method MarkDeleted(bucket: Bucket)
      modifies this
      ensures buckets == old(buckets) - {bucket}
    {
      if bucket !in buckets { return; }
      buckets := buckets - {bucket};
    }
  }

  // ---------------------------------------------------------------- a runtime

  datatype State = Created | Deployed | ObservabilityReady | PingmeshReady | Warm | CleanupFailed | TornDown

  datatype Stage = Deploy | Observability | Pingmesh | WarmUp

  function After(stage: Stage): State {
    match stage
    case Deploy => Deployed
    case Observability => ObservabilityReady
    case Pingmesh => PingmeshReady
    case WarmUp => State.Warm
  }

  /** The members of `s` that are not deleted. */
  function Kept(s: seq<Bucket>, deletable: Bucket -> bool): (r: seq<Bucket>)
    ensures forall b :: b in r <==> b in s && !deletable(b)
  {
    if s == [] then []
    else
      var last := s[|s| - 1];
      assert s == s[..|s| - 1] + [last];
      Kept(s[..|s| - 1], deletable) + if deletable(last) then [] else [last]
  }

  function Undeletable(list: set<Bucket>, deletable: Bucket -> bool): (left: set<Bucket>)
    ensures left == {} <==> forall b :: b in list ==> deletable(b)
  {
    var left := set b | b in list && !deletable(b);
    assert forall b :: b in list && !deletable(b) ==> b in left;
    left
  }

  // ---------------------------------------------------------------- a runtime's books

  /** What matters of a runtime for its buckets: where it stands, which buckets are recorded for it,
      the pending list of a failed cleanup, and which buckets exist. */
  datatype Books = Books(state: State, tried: set<Stage>, completed: set<Stage>, owned: set<Bucket>,
                         pending: Option<set<Bucket>>, existing: set<Bucket>)
  {
    predicate Sound() {
      && owned <= existing && completed <= tried
      && (pending.Some? ==> pending.value <= owned)
      && (state == Created ==> pending == None)
    }

    /** Whether tearing down has anything physical to do. */
    predicate Physical() { state != TornDown && (state != Created || Deploy in tried) }

    /** The list a teardown works from. */
    function Listed(): set<Bucket> { if state == CleanupFailed && pending.Some? then pending.value else owned }

    /** What a teardown that succeeds would delete. */
    function Reach(): set<Bucket> { if Physical() then Listed() else {} }

    predicate Safe() { owned <= Reach() }
  }

  function AfterStage(b: Books, stage: Stage, reached: set<Bucket>, ok: bool): Books {
    if stage in b.completed then b
    else
      b.(tried := b.tried + {stage}, owned := b.owned + (reached - b.existing), existing := b.existing + reached,
         state := if ok then After(stage) else b.state, completed := b.completed + if ok then {stage} else {})
  }

  function AfterTeardown(b: Books, labOk: bool, deletable: Bucket -> bool, dirGone: bool): Books {
    if b.state == TornDown then b
    else if b.Physical() && !labOk then b.(state := CleanupFailed, pending := Some(b.owned))
    else
      var list := if b.Physical() then b.Listed() else {};
      var left := Undeletable(list, deletable);
      var now := b.(owned := b.owned - (list - left), existing := b.existing - (list - left));
      if left != {} then now.(state := CleanupFailed, pending := Some(left))
      else now.(state := if dirGone then TornDown else CleanupFailed, pending := if b.Physical() then None else b.pending)
  }

  datatype Operation =
    | StageRun(stage: Stage, started: bool, reached: seq<Bucket>, ok: bool)
    | TeardownRun(labOk: bool, deletable: Bucket -> bool, dirGone: bool)

  ghost function AfterOperation(b: Books, op: Operation): Books {
    match op
    case StageRun(stage, _, reached, ok) => AfterStage(b, stage, ToSet(reached), ok)
    case TeardownRun(labOk, deletable, dirGone) => AfterTeardown(b, labOk, deletable, dirGone)
  }

  ghost function AfterAll(b: Books, ops: seq<Operation>): Books {
    if ops == [] then b else AfterOperation(AfterAll(b, ops[..|ops| - 1]), ops[|ops| - 1])
  }

  /** A stage creates a bucket and fails, when the runtime is torn down, or was never deployed, or has a
      pending list: the list of the next teardown does not have the bucket. */
  ghost predicate Loses(b: Books, op: Operation) {
    && op.StageRun? && op.stage !in b.completed && !op.ok && ToSet(op.reached) - b.existing != {}
    && (|| b.state == TornDown
        || (b.state == Created && Deploy !in b.tried + {op.stage})
        || (b.state == CleanupFailed && b.pending.Some?))
  }

  ghost predicate NeverLoses(b: Books, ops: seq<Operation>) {
    ops == [] || (NeverLoses(b, ops[..|ops| - 1]) && !Loses(AfterAll(b, ops[..|ops| - 1]), ops[|ops| - 1]))
  }

  /** A teardown that ends torn down leaves nothing recorded exactly when it could reach everything. */
  lemma TeardownLeavesNothing(b: Books, labOk: bool, deletable: Bucket -> bool, dirGone: bool)
    ensures var now := AfterTeardown(b, labOk, deletable, dirGone);
      now.state == TornDown ==> (now.owned == {} <==> b.Safe())
  {
    var now := AfterTeardown(b, labOk, deletable, dirGone);
    NothingLeft(b.owned, b.Reach());
  }

  /** One operation keeps everything within reach of the next teardown, except exactly a losing stage. */
  lemma SafeUnlessLosing(b: Books, op: Operation)
    requires b.Sound() && b.Safe()
    ensures AfterOperation(b, op).Sound()
    ensures AfterOperation(b, op).Safe() <==> !Loses(b, op)
  {
    hide ToSet;
    if op.StageRun? && !op.ok {
      if x :| x in ToSet(op.reached) - b.existing { assert x !in b.owned; }
    }
  }

  /** A stage keeps the list complete unless the list is a pending one and the stage creates a bucket. */
  lemma StageCoverage(b: Books, stage: Stage, reached: set<Bucket>, ok: bool)
    requires b.owned <= b.existing && (b.pending.Some? ==> b.pending.value <= b.owned)
    ensures var now := AfterStage(b, stage, reached, ok);
      stage !in b.completed && b.owned <= b.Listed() ==>
        (now.owned <= now.Listed() <==> ok || b.state != CleanupFailed || b.pending.None? || reached <= b.existing)
  {
    if x :| x in reached && x !in b.existing { assert x in b.owned + (reached - b.existing); }
  }

  /** Over any sequence of stages and teardowns: if no stage of it loses a bucket, everything recorded
      stays within reach, so any teardown that succeeds leaves nothing. */
  lemma {:induction false} RunLosesNothing(b: Books, ops: seq<Operation>)
    requires b.Sound() && b.Safe() && NeverLoses(b, ops)
    ensures AfterAll(b, ops).Sound() && AfterAll(b, ops).Safe()
    ensures AfterAll(b, ops).state == TornDown ==> AfterAll(b, ops).owned == {}
  {
    if ops != [] {
      RunLosesNothing(b, ops[..|ops| - 1]);
      SafeUnlessLosing(AfterAll(b, ops[..|ops| - 1]), ops[|ops| - 1]);
      hide AfterOperation;
    }
  }

  type Owners = map<Bucket, RuntimeId>

  ghost function OwnedBy(owners: Owners, id: RuntimeId): set<Bucket> {
    set b | b in owners && owners[b] == id
  }

  /** Buckets of other runtimes, and buckets nobody here created, are left alone; a bucket of this
      runtime is either still recorded and existing, or neither. */
  ghost predicate OnlyOwn(id: RuntimeId, owners0: Owners, existing0: set<Bucket>, owners: Owners, existing: set<Bucket>) {
    && owners.Keys <= existing
    && existing - owners.Keys == existing0 - owners0.Keys
    && (forall b :: b in owners0 && owners0[b] != id ==> b in owners && owners[b] == owners0[b])
    && (forall b :: b in owners && owners[b] != id ==> b in owners0 && owners[b] == owners0[b])
    && (forall b :: b in OwnedBy(owners0, id) ==>
          (b in OwnedBy(owners, id) && b in existing) || (b !in owners && b !in existing))
  }

  /** Part-way through creating buckets: those of `reached` that did not exist are now recorded. */
  ghost predicate Creating(id: RuntimeId, owners0: Owners, existing0: set<Bucket>, created0: seq<Bucket>,
                           reached: set<Bucket>, owners: Owners, existing: set<Bucket>, created: seq<Bucket>) {
    && OnlyOwn(id, owners0, existing0, owners, existing)
    && existing == existing0 + reached
    && OwnedBy(owners, id) == OwnedBy(owners0, id) + (reached - existing0)
    && ToSet(created) == ToSet(created0) + (reached - existing0)
  }

  lemma StartCreating(id: RuntimeId, owners: Owners, existing: set<Bucket>, created: seq<Bucket>)
    requires owners.Keys <= existing
    ensures Creating(id, owners, existing, created, {}, owners, existing, created)
  {
  }

  lemma CreateNew(id: RuntimeId, owners0: Owners, existing0: set<Bucket>, created0: seq<Bucket>,
                  reached: set<Bucket>, owners: Owners, existing: set<Bucket>, created: seq<Bucket>, b: Bucket)
    requires Creating(id, owners0, existing0, created0, reached, owners, existing, created) && b !in existing
    ensures b !in owners
    ensures Creating(id, owners0, existing0, created0, reached + {b}, owners[b := id], existing + {b}, created + [b])
  {
    hide ToSet;
    hide OwnedBy;
    hide OnlyOwn;
    RecordOne(id, owners0, existing0, owners, existing, b);
    Pushed(created, b);
    assert reached + {b} - existing0 == (reached - existing0) + {b};
  }

  lemma RecordOne(id: RuntimeId, owners0: Owners, existing0: set<Bucket>, owners: Owners, existing: set<Bucket>, b: Bucket)
    requires OnlyOwn(id, owners0, existing0, owners, existing) && b !in existing
    ensures b !in owners && OwnedBy(owners[b := id], id) == OwnedBy(owners, id) + {b}
    ensures OnlyOwn(id, owners0, existing0, owners[b := id], existing + {b})
  {
    assert existing + {b} - owners[b := id].Keys == existing - owners.Keys;
  }

  lemma CreateOne(id: RuntimeId, owners0: Owners, existing0: set<Bucket>, created0: seq<Bucket>,
                  reached: set<Bucket>, owners: Owners, existing: set<Bucket>, created: seq<Bucket>, b: Bucket)
    requires Creating(id, owners0, existing0, created0, reached, owners, existing, created)
    ensures b in existing ==>
      && existing + {b} == existing
      && Creating(id, owners0, existing0, created0, reached + {b}, owners, existing, created)
    ensures b !in existing ==>
      && b !in owners
      && Creating(id, owners0, existing0, created0, reached + {b}, owners[b := id], existing + {b}, created + [b])
  {
    hide ToSet;
    hide OwnedBy;
    hide OnlyOwn;
    if b in existing {
      assert existing + {b} == existing;
      assert reached + {b} - existing0 == reached - existing0;
    } else {
      CreateNew(id, owners0, existing0, created0, reached, owners, existing, created, b);
    }
  }

  lemma DoneCreating(id: RuntimeId, owners0: Owners, existing0: set<Bucket>, created0: seq<Bucket>,
                     reached: set<Bucket>, owners: Owners, existing: set<Bucket>, created: seq<Bucket>)
    requires Creating(id, owners0, existing0, created0, reached, owners, existing, created)
    requires ToSet(created0) <= OwnedBy(owners0, id)
    ensures OnlyOwn(id, owners0, existing0, owners, existing) && owners.Keys <= existing
    ensures existing == existing0 + reached
    ensures OwnedBy(owners, id) == OwnedBy(owners0, id) + (reached - existing0)
    ensures ToSet(created) == ToSet(created0) + (reached - existing0)
    ensures forall b :: b in created ==> b in OwnedBy(owners, id)
  {
    Members(created);
    hide ToSet;
    hide OwnedBy;
  }

  /** Part-way through deleting buckets: the deletable ones of `handled` are neither recorded nor there. */
  ghost predicate Deleting(id: RuntimeId, owners0: Owners, existing0: set<Bucket>, handled: set<Bucket>,
                           deletable: Bucket -> bool, owners: Owners, existing: set<Bucket>) {
    var gone := set b | b in handled && deletable(b);
    && OnlyOwn(id, owners0, existing0, owners, existing)
    && OwnedBy(owners, id) == OwnedBy(owners0, id) - gone && existing == existing0 - gone
  }

  lemma StartDeleting(id: RuntimeId, owners: Owners, existing: set<Bucket>)
    requires owners.Keys <= existing
    ensures forall deletable :: Deleting(id, owners, existing, {}, deletable, owners, existing)
  {
  }

  lemma DeleteOne(id: RuntimeId, owners0: Owners, existing0: set<Bucket>, handled: set<Bucket>,
                  deletable: Bucket -> bool, owners: Owners, existing: set<Bucket>, b: Bucket)
    requires Deleting(id, owners0, existing0, handled, deletable, owners, existing) && b in OwnedBy(owners0, id)
    requires owners0.Keys <= existing0
    ensures deletable(b) ==> Deleting(id, owners0, existing0, handled + {b}, deletable, owners - {b}, existing - {b})
    ensures !deletable(b) ==> Deleting(id, owners0, existing0, handled + {b}, deletable, owners, existing)
  {
    var gone := set x | x in handled && deletable(x);
    var now := set x | x in handled + {b} && deletable(x);
    assert now == if deletable(b) then gone + {b} else gone;
    if deletable(b) {
      assert OwnedBy(owners - {b}, id) == OwnedBy(owners, id) - {b};
      assert b in owners <==> b in OwnedBy(owners, id);
    }
  }

  lemma DoneDeleting(id: RuntimeId, owners0: Owners, existing0: set<Bucket>, handled: set<Bucket>,
                     deletable: Bucket -> bool, owners: Owners, existing: set<Bucket>)
    requires Deleting(id, owners0, existing0, handled, deletable, owners, existing)
    ensures OnlyOwn(id, owners0, existing0, owners, existing) && owners.Keys <= existing
    ensures OwnedBy(owners, id) == OwnedBy(owners0, id) - set b | b in handled && deletable(b)
    ensures existing == existing0 - set b | b in handled && deletable(b)
  {
  }

  lemma InThenOut(id: RuntimeId, owners0: Owners, existing0: set<Bucket>, owners1: Owners, existing1: set<Bucket>,
                  owners2: Owners, existing2: set<Bucket>)
    requires OnlyOwn(id, owners0, existing0, owners1, existing1) && OnlyOwn(id, owners1, existing1, owners2, existing2)
    ensures OnlyOwn(id, owners0, existing0, owners2, existing2)
  {
  }

  lemma KeptMembers(s: seq<Bucket>, deletable: Bucket -> bool)
    ensures ToSet(Kept(s, deletable)) == Undeletable(ToSet(s), deletable)
  {
  }

  lemma Members(s: seq<Bucket>)
    ensures forall b :: b in ToSet(s) <==> b in s
  {
  }

  lemma NothingLeft(all: set<Bucket>, some: set<Bucket>)
    ensures all - some == {} <==> all <= some
  {
    if all - some == {} {
      forall b | b in all ensures b in some { assert b !in all - some; }
    }
  }

  lemma NothingDone(id: RuntimeId, owners: Owners, existing: set<Bucket>)
    requires owners.Keys <= existing
    ensures OnlyOwn(id, owners, existing, owners, existing)
  {
  }

  class RuntimePool {
    const id: RuntimeId
    const registry: ManagedBucketRegistry
    const db: Database

    var state: State
    var tried: set<Stage>
    var completed: set<Stage>
    var deploymentStarted: bool
    /** `metadata["cleanup_pending_buckets"]`. */
    var pending: Option<seq<Bucket>>
    /** `_provision_created_buckets`. */
    var created: seq<Bucket>

    /** The buckets recorded for this runtime. */
    ghost function Owned(): set<Bucket>
      reads this, registry
    {
      OwnedBy(registry.buckets, id)
    }

    /** What is recorded exists; the runtime's lists hold only its own recorded buckets. */
    ghost predicate Valid()
      reads this, registry, db
    {
      && registry.buckets.Keys <= db.existing
      && (forall b :: b in created ==> b in Owned())
      && (pending.Some? ==> forall b :: b in pending.value ==> b in Owned())
      && (state == Created ==> pending == None)
    }

    ghost function View(): Books
      reads this, registry, db
    {
      Books(state, tried, completed, Owned(), if pending.Some? then Some(ToSet(pending.value)) else None, db.existing)
    }

    /** The list a retried teardown works from. */
    ghost function Listed(): set<Bucket>
      reads this, registry, db
    {
      View().Listed()
    }

    /** Nothing recorded is missing from that list. */
    ghost predicate Covered()
      reads this, registry, db
    {
      Owned() <= Listed()
    }

    constructor (id: RuntimeId, registry: ManagedBucketRegistry, db: Database)
      requires registry.buckets.Keys <= db.existing
      ensures Valid() && this.id == id && this.registry == registry && this.db == db
      ensures state == Created && tried == {} && completed == {} && created == [] && pending == None
      ensures !deploymentStarted
    {
      this.id, this.registry, this.db := id, registry, db;
      state, tried, completed, deploymentStarted, pending, created := Created, {}, {}, false, None, [];
    }

    /** Since the start of the method, only this runtime's buckets have been touched. */
    twostate predicate OthersUntouched()
      reads this, registry, db
    {
      OnlyOwn(id, old(registry.buckets), old(db.existing), registry.buckets, db.existing)
    }

    ghost predicate Unchanged(owners: Owners, existing: set<Bucket>, created: seq<Bucket>)
      reads this, registry, db
    {
      registry.buckets == owners && db.existing == existing && this.created == created
    }

    /** The observability stage reaches the buckets of some workers, in order, and creates those that
        do not exist yet. */
    method EnsureBuckets(reached: seq<Bucket>)
      requires Valid()
      modifies this`created, registry, db
      ensures Valid() && OthersUntouched()
      ensures Owned() == old(Owned()) + (ToSet(reached) - old(db.existing))
      ensures ToSet(created) == ToSet(old(created)) + (ToSet(reached) - old(db.existing))
      ensures db.existing == old(db.existing) + ToSet(reached)
      ensures reached == [] ==> Unchanged(old(registry.buckets), old(db.existing), old(created))
    {
      hide Creating;
      ghost var owners0, existing0, created0 := registry.buckets, db.existing, created;
      StartCreating(id, owners0, existing0, created0);
      assert ToSet(reached[..0]) == {};
      for i := 0 to |reached|
        invariant i == 0 ==> Unchanged(owners0, existing0, created0)
        invariant Creating(id, owners0, existing0, created0, ToSet(reached[..i]), registry.buckets, db.existing, created)
      {
        var bucket := reached[i];
        CreateOne(id, owners0, existing0, created0, ToSet(reached[..i]), registry.buckets, db.existing, created, bucket);
        OneMore(reached, i);
        hide ToSet;
        var isNew := db.EnsureBucket(bucket);
        if isNew {
          registry.RecordCreated(bucket, id);
          created := created + [bucket];
        }
      }
      assert reached[..|reached|] == reached;
      DoneCreating(id, owners0, existing0, created0, ToSet(reached), registry.buckets, db.existing, created);
    }

    /** Runs a stage unless it has completed before. `reached` are the buckets the stage got to. */
    method RunStage(stage: Stage, started: bool, reached: seq<Bucket>, ok: bool) returns (done: bool)
      requires Valid() && (stage != Observability ==> reached == [])
      modifies this, registry, db
      ensures Valid() && OthersUntouched() && pending == old(pending)
      ensures stage in old(completed) ==> done && state == old(state)
      ensures stage in old(completed) || stage != Observability ==>
        Unchanged(old(registry.buckets), old(db.existing), old(created))
      ensures stage !in old(completed) ==>
        && done == ok && state == (if ok then After(stage) else old(state))
        && Owned() == old(Owned()) + (ToSet(reached) - old(db.existing))
        && ToSet(created) == ToSet(old(created)) + (ToSet(reached) - old(db.existing))
      ensures stage !in old(completed) ==> deploymentStarted == (old(deploymentStarted) || (stage == Deploy && started))
      ensures tried == old(tried) + (if stage in old(completed) then {} else {stage})
      ensures completed == old(completed) + if done then {stage} else {}
      ensures View() == AfterStage(old(View()), stage, ToSet(reached), ok)
      ensures old(completed <= tried) ==> completed <= tried
      ensures stage !in old(completed) && old(Covered()) ==>
        (Covered() <==> ok || old(state) != CleanupFailed || pending.None? || ToSet(reached) <= old(db.existing))
    {
      hide OnlyOwn;
      hide OwnedBy;
      hide ToSet;
      assert stage != Observability ==> ToSet(reached) == {} by { Members(reached); }
      NothingDone(id, registry.buckets, db.existing);
      ListIsOwned();
      StageCoverage(View(), stage, ToSet(reached), ok);
      if stage in completed { return true; }
      tried := tried + {stage};
      if stage == Deploy && started { deploymentStarted := true; }
      EnsureBuckets(reached);
      if ok {
        completed, state := completed + {stage}, After(stage);
      }
      return ok;
    }

    lemma ListIsOwned()
      requires Valid()
      ensures Owned() <= db.existing && (pending.Some? ==> ToSet(pending.value) <= Owned())
    {
    }

    /** Tries to delete every bucket on the list; those that fail stay on it. */
    method DeleteCreated(deletable: Bucket -> bool) returns (ok: bool)
      requires registry.buckets.Keys <= db.existing && ToSet(created) <= Owned()
      modifies this`created, registry, db
      ensures registry.buckets.Keys <= db.existing && OthersUntouched()
      ensures created == Kept(old(created), deletable) && (ok <==> created == [])
      ensures Owned() == old(Owned()) - (ToSet(old(created)) - ToSet(created))
      ensures db.existing == old(db.existing) - (ToSet(old(created)) - ToSet(created))
      ensures ToSet(created) <= Owned() && ToSet(created) <= ToSet(old(created))
    {
      hide Deleting;
      ghost var owners0, existing0, all := registry.buckets, db.existing, created;
      StartDeleting(id, owners0, existing0);
      Members(all);
      assert ToSet(all[..0]) == {} && Kept(all[..0], deletable) == [];
      var failed: seq<Bucket> := [];
      for i := 0 to |created|
        invariant created == all && failed == Kept(all[..i], deletable)
        invariant Deleting(id, owners0, existing0, ToSet(all[..i]), deletable, registry.buckets, db.existing)
      {
        var bucket := created[i];
        assert bucket in ToSet(all);
        KeptOneMore(all, i, deletable);
        OneMore(all, i);
        DeleteOne(id, owners0, existing0, ToSet(all[..i]), deletable, registry.buckets, db.existing, bucket);
        hide ToSet;
        hide Kept;
        var deleted := db.DeleteBucket(bucket, deletable(bucket));
        if deleted {
          registry.MarkDeleted(bucket);
        } else {
          failed := failed + [bucket];
        }
      }
      assert all[..|all|] == all;
      KeptMembers(all, deletable);
      DoneDeleting(id, owners0, existing0, ToSet(all), deletable, registry.buckets, db.existing);
      created := failed;
      ok := failed == [];
    }

    /** Whether tearing down has anything physical to do. */
    ghost predicate Physical()
      reads this, registry, db
    {
      View().Physical()
    }

    /** Takes the workers down and deletes the buckets on the list. */
    method TeardownResources(labOk: bool, deletable: Bucket -> bool) returns (ok: bool)
      requires Valid()
      modifies this, registry, db
      ensures Valid() && OthersUntouched()
      ensures ok <==> labOk && forall b :: b in old(Listed()) ==> deletable(b)
      ensures ok ==> pending == None && state == old(state)
      ensures !ok ==> state == CleanupFailed && pending.Some?
      ensures !labOk ==> Owned() == old(Owned()) == ToSet(pending.value)
      ensures labOk ==> Owned() == old(Owned()) - (old(Listed()) - if ok then {} else ToSet(pending.value))
      ensures labOk ==> db.existing == old(db.existing) - (old(Listed()) - if ok then {} else ToSet(pending.value))
      ensures labOk && !ok ==> ToSet(pending.value) == Undeletable(old(Listed()), deletable)
      ensures !labOk ==> db.existing == old(db.existing)
      ensures tried == old(tried) && completed == old(completed)
    {
      hide OnlyOwn;
      hide OwnedBy;
      hide Kept;
      hide ToSet;
      NothingDone(id, registry.buckets, db.existing);
      if !labOk {
        var active := ActiveBuckets();
        Members(active);
        state, pending := CleanupFailed, Some(active);
        return false;
      }
      LoadList();
      ghost var list := created;
      ok := DeleteCreated(deletable);
      Members(list);
      Members(created);
      KeptMembers(list, deletable);
      if !ok {
        assert created[0] in ToSet(created);
        state, pending := CleanupFailed, Some(created);
        return false;
      }
      pending := None;
    }

    /** The pending buckets of a failed cleanup, or else all that are recorded. */
    method LoadList()
      requires Valid()
      modifies this`created
      ensures ToSet(created) == Listed() <= Owned()
    {
      if state == CleanupFailed && pending.Some? {
        created := pending.value;
      } else {
        created := ActiveBuckets();
      }
    }

    method ActiveBuckets() returns (active: seq<Bucket>)
      ensures ToSet(active) == Owned() && NoDuplicates(active)
    {
      active := registry.ActiveForRuntime(id);
    }

    /** `labOk`: the workers could be torn down; `dirGone`: the runtime directory could be removed. A
        teardown that succeeds leaves nothing recorded exactly when everything recorded was within
        its reach; one that fails keeps every bucket it did not delete on the list for the retry. */
    method Teardown(labOk: bool, deletable: Bucket -> bool, dirGone: bool) returns (ok: bool)
      requires Valid()
      modifies this, registry, db
      ensures Valid() && OthersUntouched()
      ensures state == if ok then TornDown else CleanupFailed
      ensures old(state) != TornDown ==>
        (ok <==> dirGone && (old(Physical()) ==> labOk && forall b :: b in old(Listed()) ==> deletable(b)))
      ensures !old(Physical()) ==> Owned() == old(Owned())
      ensures old(Physical()) && ok ==> Owned() == old(Owned()) - old(Listed())
      ensures old(Physical()) && ok ==> (Owned() == {} <==> old(Covered()))
      ensures View() == AfterTeardown(old(View()), labOk, deletable, dirGone)
      ensures ok ==> (Owned() == {} <==> old(View().Safe()))
      ensures old(Physical()) && !labOk ==> !ok && Owned() == old(Owned())
      ensures old(Physical()) && labOk && !ok ==>
        Owned() == old(Owned()) - (old(Listed()) - if pending.Some? then ToSet(pending.value) else {})
      ensures old(Covered()) ==> Covered()
    {
      hide OnlyOwn;
      hide OwnedBy;
      hide Undeletable;
      TeardownLeavesNothing(View(), labOk, deletable, dirGone);
      NothingDone(id, registry.buckets, db.existing);
      if state == TornDown { return true; }
      if state != Created || Deploy in tried {
        ok := TeardownResources(labOk, deletable);
        if !ok { return; }
      }
      if !dirGone {
        state := CleanupFailed;
        return false;
      }
      NothingLeft(old(Owned()), old(Listed()));
      state := TornDown;
      return true;
    }

    /** Runs the four stages, and undoes them when one fails. `okOf` says which stages go through,
        `reached` which buckets the observability stage gets to; `recorded` are those it creates. The
        runtime then owns them, or only the undeletable ones, or all of them when the workers could not
        be taken down; whatever it still owns after a failure is on the pending list. */
    method Provision(started: bool, okOf: Stage -> bool, reached: seq<Bucket>, labOk: bool,
                     deletable: Bucket -> bool, dirGone: bool) returns (ok: bool, ghost recorded: set<Bucket>)
      requires Valid() && state == Created && completed == {} && created == [] && !deploymentStarted
      modifies this, registry, db
      ensures Valid() && OthersUntouched()
      ensures recorded == if okOf(Deploy) then ToSet(reached) - old(db.existing) else {}
      ensures ok <==> okOf(Deploy) && okOf(Observability) && okOf(Pingmesh) && okOf(WarmUp)
      ensures ok ==> state == State.Warm && Owned() == old(Owned()) + recorded
      ensures !ok ==> Owned() == old(Owned()) + set b | b in recorded && (!deletable(b) || (started && !labOk))
      ensures !ok && pending.Some? ==> state == CleanupFailed && ToSet(pending.value) == Owned() - old(Owned())
      ensures !ok && pending.None? ==> Owned() == old(Owned()) && (state == CleanupFailed <==> !dirGone)
      ensures Deploy in tried && (Observability in completed <==> okOf(Deploy) && okOf(Observability))
      ensures View().Sound() && completed <= tried
      ensures old(Owned()) == {} ==> Covered() && View().Safe()
    {
      hide OnlyOwn;
      hide OwnedBy;
      hide Kept;
      ok := RunStages(started, okOf, reached);
      recorded := ToSet(created);
      if ok {
        state := State.Warm;
        CoveredIsSafe();
        return;
      }
      if deploymentStarted && !labOk {
        state, pending := CleanupFailed, Some(created);
        CoveredIsSafe();
        return;
      }
      ghost var owners, existing := registry.buckets, db.existing;
      DeleteProvisioned(deletable, dirGone);
      InThenOut(id, old(registry.buckets), old(db.existing), owners, existing, registry.buckets, db.existing);
    }

    /** Deletes what a failed provisioning created, and notes what could not be deleted. */
    method DeleteProvisioned(deletable: Bucket -> bool, dirGone: bool)
      requires Valid() && pending == None && state != TornDown && Deploy in tried && completed <= tried
      modifies this, registry, db
      ensures Valid() && OthersUntouched() && tried == old(tried) && completed == old(completed) && View().Sound()
      ensures Owned() == old(Owned()) - set b | b in ToSet(old(created)) && deletable(b)
      ensures pending.Some? ==> state == CleanupFailed && pending.value == created
      ensures pending.Some? ==> ToSet(created) == Undeletable(ToSet(old(created)), deletable)
      ensures pending.None? ==> state == (if dirGone then old(state) else CleanupFailed)
      ensures pending.None? ==> state != TornDown && forall b :: b in ToSet(old(created)) ==> deletable(b)
      ensures Covered() ==> View().Safe()
    {
      hide OnlyOwn;
      hide OwnedBy;
      ghost var list := created;
      Members(list);
      var deleted := DeleteCreated(deletable);
      KeptMembers(list, deletable);
      hide Kept;
      Members(created);
      if !deleted {
        state, pending := CleanupFailed, Some(created);
      } else if !dirGone {
        state := CleanupFailed;
      }
      CoveredIsSafe();
    }

    /** Once a runtime has been deployed, a complete list is all a teardown needs. */
    lemma CoveredIsSafe()
      requires Valid() && completed <= tried
      ensures View().Sound()
      ensures Deploy in tried && state != TornDown ==> (View().Safe() <==> Covered())
    {
      ValidIsSound();
    }

    /** Any stages and teardowns in any order follow the books. */
    method Operate(ops: seq<Operation>)
      requires Valid() && completed <= tried
      requires forall i :: 0 <= i < |ops| && ops[i].StageRun? && ops[i].stage != Observability ==> ops[i].reached == []
      modifies this, registry, db
      ensures Valid() && OthersUntouched() && completed <= tried
      ensures View() == AfterAll(old(View()), ops)
      ensures old(View().Safe()) && NeverLoses(old(View()), ops) ==> View().Safe() && (state == TornDown ==> Owned() == {})
    {
      ghost var owners0, existing0, start := registry.buckets, db.existing, View();
      NothingDone(id, owners0, existing0);
      ValidIsSound();
      hide OnlyOwn;
      hide OwnedBy;
      hide AfterStage;
      hide AfterTeardown;
      assert ops[..0] == [];
      for i := 0 to |ops|
        invariant Valid() && completed <= tried && OnlyOwn(id, owners0, existing0, registry.buckets, db.existing)
        invariant View() == AfterAll(start, ops[..i])
      {
        assert ops[..i + 1][..i] == ops[..i];
        ghost var owners, existing := registry.buckets, db.existing;
        OperateOne(ops[i]);
        InThenOut(id, owners0, existing0, owners, existing, registry.buckets, db.existing);
      }
      assert ops[..|ops|] == ops;
      if start.Safe() && NeverLoses(start, ops) { RunLosesNothing(start, ops); }
    }

    method OperateOne(op: Operation)
      requires Valid() && completed <= tried
      requires op.StageRun? && op.stage != Observability ==> op.reached == []
      modifies this, registry, db
      ensures Valid() && OthersUntouched() && completed <= tried
      ensures View() == AfterOperation(old(View()), op)
    {
      match op
      case StageRun(stage, started, reached, ok) => var _ := RunStage(stage, started, reached, ok);
      case TeardownRun(labOk, deletable, dirGone) => var _ := Teardown(labOk, deletable, dirGone);
    }

    lemma ValidIsSound()
      requires Valid() && completed <= tried
      ensures View().Sound()
    {
      if pending.Some? { Members(pending.value); }
    }

    method RunStages(started: bool, okOf: Stage -> bool, reached: seq<Bucket>) returns (ok: bool)
      requires Valid() && state == Created && completed == {} && created == [] && !deploymentStarted
      modifies this, registry, db
      ensures Valid() && OthersUntouched() && pending == old(pending) && state != CleanupFailed
      ensures ToSet(created) == if okOf(Deploy) then ToSet(reached) - old(db.existing) else {}
      ensures Owned() == old(Owned()) + ToSet(created) && ToSet(created) !! old(Owned())
      ensures deploymentStarted == started && Deploy in tried && completed <= tried && state != TornDown
      ensures Observability in completed <==> okOf(Deploy) && okOf(Observability)
      ensures ok <==> okOf(Deploy) && okOf(Observability) && okOf(Pingmesh) && okOf(WarmUp)
    {
      assert Owned() <= db.existing && ToSet(created) == {};
      NothingDone(id, registry.buckets, db.existing);
      hide OnlyOwn;
      hide OwnedBy;
      hide ToSet;
      hide AfterStage;
      hide Covered;
      ok := RunStage(Deploy, started, [], okOf(Deploy));
      if !ok { return; }
      ok := RunStage(Observability, false, reached, okOf(Observability));
      if !ok { return; }
      ok := RunLastStages(okOf);
    }

    method RunLastStages(okOf: Stage -> bool) returns (ok: bool)
      requires Valid() && completed == {Deploy, Observability} && completed <= tried && state != CleanupFailed && state != TornDown
      modifies this, registry, db
      ensures Valid() && Unchanged(old(registry.buckets), old(db.existing), old(created)) && pending == old(pending)
      ensures state != CleanupFailed && state != TornDown && deploymentStarted == old(deploymentStarted)
      ensures completed <= tried && old(tried) <= tried && Observability in completed
      ensures ok <==> okOf(Pingmesh) && okOf(WarmUp)
    {
      hide Valid;
      hide OnlyOwn;
      hide OwnedBy;
      hide ToSet;
      hide AfterStage;
      hide Covered;
      ok := RunStage(Pingmesh, false, [], okOf(Pingmesh));
      if !ok { return; }
      ok := RunStage(WarmUp, false, [], okOf(WarmUp));
    }
  }

  lemma NobodyElse(id: RuntimeId, owners: Owners, existing: set<Bucket>)
    requires OnlyOwn(id, map[], {}, owners, existing)
    ensures existing == OwnedBy(owners, id)
  {
    forall b | b in existing ensures b in OwnedBy(owners, id) {
      assert b !in existing - owners.Keys;
    }
  }

  /** A stage that is run again after a failed cleanup, and fails again, records buckets the pending
      list does not have: the next teardown succeeds and leaves them behind. */
  method StaleListLosesBuckets() returns (pool: RuntimePool)
    ensures pool.Valid() && pool.state == TornDown && pool.Owned() == {"two"}
  {
    pool := FailedProvision("one");
    assert ToSet(["two"]) == {"two"};
    hide ToSet;
    hide OnlyOwn;
    hide OwnedBy;
    var done := pool.RunStage(Observability, false, ["two"], false);
    assert pool.Owned() == {"one", "two"} && pool.Listed() == {"one"};
    var ok := pool.Teardown(true, b => true, true);
  }

  /** A runtime that was never deployed creates a bucket and fails: the next teardown has nothing
      physical to do, so it does not look for buckets either. */
  method SkippedDeletionLosesBuckets(bucket: Bucket) returns (pool: RuntimePool)
    ensures pool.Valid() && pool.state == TornDown && pool.Owned() == {bucket}
  {
    assert ToSet([bucket]) == {bucket};
    hide ToSet;
    hide OnlyOwn;
    var registry := new ManagedBucketRegistry();
    var db := new Database({});
    pool := new RuntimePool("lab", registry, db);
    assert pool.Owned() == {};
    hide OwnedBy;
    var done := pool.RunStage(Observability, false, [bucket], false);
    assert pool.Covered() && !pool.View().Safe();
    var ok := pool.Teardown(true, b => true, true);
  }

  /** The observability stage creates a bucket and fails, and the bucket cannot be deleted. */
  method FailedProvision(bucket: Bucket) returns (pool: RuntimePool)
    ensures fresh(pool) && fresh(pool.registry) && fresh(pool.db) && pool.Valid()
    ensures pool.state == CleanupFailed && pool.pending.Some? && ToSet(pool.pending.value) == {bucket}
    ensures pool.Owned() == pool.db.existing == {bucket} && Observability !in pool.completed
  {
    assert ToSet([bucket]) == {bucket};
    hide ToSet;
    hide OnlyOwn;
    var registry := new ManagedBucketRegistry();
    var db := new Database({});
    pool := new RuntimePool("lab", registry, db);
    assert pool.Owned() == {};
    hide OwnedBy;
    var ok;
    ghost var recorded;
    ok, recorded := pool.Provision(true, stage => stage == Deploy, [bucket], true, b => false, true);
    assert recorded == {bucket} && pool.Owned() == {bucket};
    NobodyElse("lab", registry.buckets, db.existing);
  }

  lemma KeptOneMore(s: seq<Bucket>, i: nat, deletable: Bucket -> bool)
    requires i < |s|
    ensures Kept(s[..i + 1], deletable) == Kept(s[..i], deletable) + if deletable(s[i]) then [] else [s[i]]
    ensures ToSet(Kept(s[..i], deletable) + [s[i]]) == ToSet(Kept(s[..i], deletable)) + {s[i]}
    ensures deletable(s[i]) ==> s[i] !in ToSet(Kept(s[..i], deletable))
  {
    assert s[..i + 1][..i] == s[..i];
  }

  lemma OneMore(s: seq<Bucket>, i: nat)
    requires i < |s|
    ensures ToSet(s[..i + 1]) == ToSet(s[..i]) + {s[i]}
  {
    assert s[..i + 1] == s[..i] + [s[i]];
  }

  lemma Pushed(s: seq<Bucket>, b: Bucket)
    ensures ToSet(s + [b]) == ToSet(s) + {b}
  {
  }
}
