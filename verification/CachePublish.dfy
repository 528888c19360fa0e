/** bridge/schema/write.go: any number of writers staging a cache and swapping it in by rename.
    A step is one filesystem call; a writer may crash between any two. Temporary names are
    unique to their writer. Renaming over a directory that is there fails, since a published
    cache is never empty. */
module CachePublish {
  import opened Common
  import opened SchemaCache

  datatype Name = Final | StagingOf(w: nat) | BackupOf(w: nat)

  datatype Stage =
    | Idle
    | Writing(done: nat, open: bool)
    | Checking
    | Publishing
    | BackingUp
    | PublishingOver
    | Restoring
    | RemovingBackup
    | CleaningUp
    | Finished
    | Crashed

  /** A writer has its own plan for its own provider response. */
  datatype Writer = Writer(plan: seq<(string, File)>, resp: Response, stage: Stage)

  datatype State = State(fs: map<Name, Dir>, writers: seq<Writer>)

  datatype Event =
    | Begins(w: nat)
    | OpensFile(w: nat)
    | ClosesFile(w: nat)
    | Staged(w: nat)
    | Checks(w: nat)
    | Publishes(w: nat, io: bool)
    | BacksUp(w: nat, io: bool)
    | PublishesOver(w: nat, io: bool)
    | Restores(w: nat, io: bool)
    | RemovesBackupFile(w: nat, path: string)
    | RemovesBackupDir(w: nat)
    | CleansFile(w: nat, path: string)
    | CleansDir(w: nat)
    | Fails(w: nat)
    | Crashes(w: nat)

  predicate At(s: State, w: nat, stage: Stage) {
    w < |s.writers| && s.writers[w].stage == stage
  }

  ghost predicate Enabled(s: State, e: Event) {
    match e
    case Begins(w) => At(s, w, Idle) && StagingOf(w) !in s.fs
    case OpensFile(w) =>
      && w < |s.writers| && s.writers[w].stage.Writing? && !s.writers[w].stage.open
      && s.writers[w].stage.done < |s.writers[w].plan| && StagingOf(w) in s.fs
    case ClosesFile(w) =>
      && w < |s.writers| && s.writers[w].stage.Writing? && s.writers[w].stage.open
      && s.writers[w].stage.done < |s.writers[w].plan| && StagingOf(w) in s.fs
    case Staged(w) => w < |s.writers| && s.writers[w].stage == Writing(|s.writers[w].plan|, false)
    case Checks(w) => At(s, w, Checking)
    case Publishes(w, _) => At(s, w, Publishing)
    case BacksUp(w, _) => At(s, w, BackingUp)
    case PublishesOver(w, _) => At(s, w, PublishingOver)
    case Restores(w, _) => At(s, w, Restoring)
    case RemovesBackupFile(w, _) => At(s, w, RemovingBackup) && BackupOf(w) in s.fs
    case RemovesBackupDir(w) => At(s, w, RemovingBackup)
    case CleansFile(w, _) => At(s, w, CleaningUp) && StagingOf(w) in s.fs
    case CleansDir(w) => At(s, w, CleaningUp)
    // an I/O error before publishing, or while removing the backup
    case Fails(w) => w < |s.writers| &&
      (s.writers[w].stage.Writing? || s.writers[w].stage == Checking || s.writers[w].stage == RemovingBackup)
    case Crashes(w) => w < |s.writers|
  }

  function Become(s: State, w: nat, stage: Stage): State
    requires w < |s.writers|
  {
    s.(writers := s.writers[w := s.writers[w].(stage := stage)])
  }

  /** Whether the rename works: the source is there, the target is not, and the call itself succeeds. */
  predicate CanRename(s: State, from: Name, to: Name, io: bool) {
    io && from in s.fs && to !in s.fs
  }

  function Rename(s: State, from: Name, to: Name): State
    requires from in s.fs
  {
    s.(fs := (s.fs - {from})[to := s.fs[from]])
  }

  ghost function Apply(s: State, e: Event): (s': State)
    requires Enabled(s, e)
  {
    match e
    case Begins(w) => Become(s.(fs := s.fs[StagingOf(w) := map[]]), w, Writing(0, false))
    case OpensFile(w) =>
      var writer := s.writers[w];
      Become(s.(fs := s.fs[StagingOf(w) := s.fs[StagingOf(w)][writer.plan[writer.stage.done].0 := Partial]]),
        w, Writing(writer.stage.done, true))
    case ClosesFile(w) =>
      var writer := s.writers[w];
      var (path, file) := writer.plan[writer.stage.done];
      Become(s.(fs := s.fs[StagingOf(w) := s.fs[StagingOf(w)][path := file]]), w, Writing(writer.stage.done + 1, false))
    case Staged(w) => Become(s, w, Checking)
    case Checks(w) => Become(s, w, if Final in s.fs then BackingUp else Publishing)
    case Publishes(w, io) =>
      if CanRename(s, StagingOf(w), Final, io) then Become(Rename(s, StagingOf(w), Final), w, Finished)
      else Become(s, w, CleaningUp)
    case BacksUp(w, io) =>
      if CanRename(s, Final, BackupOf(w), io) then Become(Rename(s, Final, BackupOf(w)), w, PublishingOver)
      else Become(s, w, CleaningUp)
    case PublishesOver(w, io) =>
      if CanRename(s, StagingOf(w), Final, io) then Become(Rename(s, StagingOf(w), Final), w, RemovingBackup)
      else Become(s, w, Restoring)
    case Restores(w, io) =>
      if CanRename(s, BackupOf(w), Final, io) then Become(Rename(s, BackupOf(w), Final), w, CleaningUp)
      else Become(s, w, CleaningUp)
    case RemovesBackupFile(w, path) => s.(fs := s.fs[BackupOf(w) := s.fs[BackupOf(w)] - {path}])
    case RemovesBackupDir(w) => Become(s.(fs := s.fs - {BackupOf(w)}), w, Finished)
    case CleansFile(w, path) => s.(fs := s.fs[StagingOf(w) := s.fs[StagingOf(w)] - {path}])
    case CleansDir(w) => Become(s.(fs := s.fs - {StagingOf(w)}), w, Finished)
    case Fails(w) => Become(s, w, CleaningUp)
    case Crashes(w) => Become(s, w, Crashed)
  }

  // ---------------------------------------------------------------- the invariant

  /** Some writer's response, in full. */
  ghost predicate Complete(writers: seq<Writer>, dir: Dir) {
    exists v :: 0 <= v < |writers| && CacheHolds(dir, writers[v].resp)
  }

  function StagedFiles(writer: Writer): Dir {
    match writer.stage
    case Writing(done, open) =>
      if done < |writer.plan| && open then Contents(writer.plan[..done])[writer.plan[done].0 := Partial]
      else if done <= |writer.plan| then Contents(writer.plan[..done])
      else map[]
    case _ => Contents(writer.plan)
  }

  predicate HasStaged(stage: Stage) {
    stage.Writing? || stage == Checking || stage == Publishing || stage == BackingUp || stage == PublishingOver
  }

  predicate HasBackup(stage: Stage) {
    stage == PublishingOver || stage == Restoring
  }

  ghost predicate WriterOk(s: State, w: nat)
    requires w < |s.writers|
  {
    var writer := s.writers[w];
    && IsPlan(writer.plan, writer.resp)
    && (writer.stage.Writing? ==> writer.stage.done <= |writer.plan|)
    && (HasStaged(writer.stage) ==> StagingOf(w) in s.fs && s.fs[StagingOf(w)] == StagedFiles(writer))
    && (HasBackup(writer.stage) && BackupOf(w) in s.fs ==> Complete(s.writers, s.fs[BackupOf(w)]))
  }

  ghost predicate Inv(s: State) {
    && (Final in s.fs ==> Complete(s.writers, s.fs[Final]))
    && forall w :: 0 <= w < |s.writers| ==> WriterOk(s, w)
  }

  ghost predicate Initial(s: State) {
    && s.fs == map[]
    && forall w :: 0 <= w < |s.writers| ==> s.writers[w].stage == Idle && IsPlan(s.writers[w].plan, s.writers[w].resp)
  }

  /** Stages aside, the writers stay who they are, so complete directories stay complete. */
  lemma CompleteKept(writers: seq<Writer>, writers': seq<Writer>, dir: Dir)
    requires Complete(writers, dir) && |writers'| == |writers|
    requires forall v :: 0 <= v < |writers| ==> writers'[v].resp == writers[v].resp
    ensures Complete(writers', dir)
  {
    hide CacheHolds;
    var v :| 0 <= v < |writers| && CacheHolds(dir, writers[v].resp);
    assert CacheHolds(dir, writers'[v].resp);
  }

  /** A writer past its stage of writing holds, in its staging directory, its whole cache. */
  lemma StagedIsComplete(s: State, w: nat)
    requires Inv(s) && w < |s.writers| && HasStaged(s.writers[w].stage) && !s.writers[w].stage.Writing?
    ensures StagingOf(w) in s.fs && Complete(s.writers, s.fs[StagingOf(w)])
  {
    hide CacheHolds;
    assert WriterOk(s, w);
  }

  lemma WriteStep(writer: Writer)
    requires writer.stage.Writing? && writer.stage.done < |writer.plan|
    ensures
      var done := writer.stage.done;
      Contents(writer.plan[..done + 1]) == Contents(writer.plan[..done])[writer.plan[done].0 := writer.plan[done].1]
  {
    assert writer.plan[..writer.stage.done + 1][..writer.stage.done] == writer.plan[..writer.stage.done];
  }

  lemma StagedAtStart(writer: Writer)
    ensures StagedFiles(writer.(stage := Writing(0, false))) == map[]
    ensures StagedFiles(writer.(stage := Writing(|writer.plan|, false))) == StagedFiles(writer.(stage := Checking))
  {
    assert writer.plan[..0] == [] && writer.plan[..|writer.plan|] == writer.plan;
  }

  /** What the acting writer must show after its step, for the invariant to hold of everybody. */
  lemma OneWriterActs(s: State, s': State, w: nat)
    requires Inv(s) && w < |s.writers| && |s'.writers| == |s.writers|
    requires forall v :: 0 <= v < |s.writers| && v != w ==> s'.writers[v] == s.writers[v]
    requires s'.writers[w].plan == s.writers[w].plan && s'.writers[w].resp == s.writers[w].resp
    requires forall v: nat :: v != w ==>
      && (StagingOf(v) in s'.fs <==> StagingOf(v) in s.fs) && (StagingOf(v) in s.fs ==> s'.fs[StagingOf(v)] == s.fs[StagingOf(v)])
      && (BackupOf(v) in s'.fs <==> BackupOf(v) in s.fs) && (BackupOf(v) in s.fs ==> s'.fs[BackupOf(v)] == s.fs[BackupOf(v)])
    requires Final in s'.fs ==> Complete(s.writers, s'.fs[Final])
    requires s'.writers[w].stage.Writing? ==> s'.writers[w].stage.done <= |s.writers[w].plan|
    requires HasStaged(s'.writers[w].stage) ==> StagingOf(w) in s'.fs && s'.fs[StagingOf(w)] == StagedFiles(s'.writers[w])
    requires HasBackup(s'.writers[w].stage) && BackupOf(w) in s'.fs ==> Complete(s.writers, s'.fs[BackupOf(w)])
    ensures Inv(s')
  {
    hide IsPlan, Complete, StagedFiles;
    assert WriterOk(s, w);
    if Final in s'.fs { CompleteKept(s.writers, s'.writers, s'.fs[Final]); }
    forall v | 0 <= v < |s'.writers| ensures WriterOk(s', v) {
      assert WriterOk(s, v);
      if HasBackup(s'.writers[v].stage) && BackupOf(v) in s'.fs {
        CompleteKept(s.writers, s'.writers, s'.fs[BackupOf(v)]);
      }
    }
  }

  lemma WritingKeepsInv(s: State, e: Event)
    requires Inv(s) && Enabled(s, e) && (e.Begins? || e.OpensFile? || e.ClosesFile? || e.Staged?)
    ensures Inv(Apply(s, e))
  {
    hide IsPlan, Complete, StagedFiles, Contents;
    var writer := s.writers[e.w];
    assert WriterOk(s, e.w);
    StagedAtStart(writer);
    if e.OpensFile? { OpenedFiles(writer); }
    if e.ClosesFile? { ClosedFiles(writer); }
    if e.Staged? { assert writer.(stage := Writing(|writer.plan|, false)) == writer; }
    OneWriterActs(s, Apply(s, e), e.w);
  }

  lemma RenamingKeepsInv(s: State, e: Event)
    requires Inv(s) && Enabled(s, e) && (e.Checks? || e.Publishes? || e.BacksUp?)
    ensures Inv(Apply(s, e))
  {
    hide IsPlan, Complete, StagedFiles, Contents;
    var s' := Apply(s, e);
    assert WriterOk(s, e.w);
    StagedIsComplete(s, e.w);
    if !s'.writers[e.w].stage.Writing? { SameStaged(s.writers[e.w], s'.writers[e.w]); }
    OneWriterActs(s, s', e.w);
  }

  lemma SwappingKeepsInv(s: State, e: Event)
    requires Inv(s) && Enabled(s, e) && (e.PublishesOver? || e.Restores?)
    ensures Inv(Apply(s, e))
  {
    hide IsPlan, Complete, StagedFiles, Contents;
    assert WriterOk(s, e.w);
    if e.PublishesOver? { StagedIsComplete(s, e.w); }
    OneWriterActs(s, Apply(s, e), e.w);
  }

  lemma EndingKeepsInv(s: State, e: Event)
    requires Inv(s) && Enabled(s, e)
    requires e.RemovesBackupFile? || e.RemovesBackupDir? || e.CleansFile? || e.CleansDir? || e.Fails? || e.Crashes?
    ensures Inv(Apply(s, e))
  {
    hide IsPlan, Complete, StagedFiles, Contents;
    assert WriterOk(s, e.w);
    OneWriterActs(s, Apply(s, e), e.w);
  }

  lemma StepKeepsInv(s: State, e: Event)
    requires Inv(s) && Enabled(s, e)
    ensures Inv(Apply(s, e))
  {
    hide Inv, Apply, Enabled;
    if e.Begins? || e.OpensFile? || e.ClosesFile? || e.Staged? {
      WritingKeepsInv(s, e);
    } else if e.Checks? || e.Publishes? || e.BacksUp? {
      RenamingKeepsInv(s, e);
    } else if e.PublishesOver? || e.Restores? {
      SwappingKeepsInv(s, e);
    } else {
      EndingKeepsInv(s, e);
    }
  }

  lemma SameStaged(a: Writer, b: Writer)
    requires a.plan == b.plan && !a.stage.Writing? && !b.stage.Writing?
    ensures StagedFiles(a) == StagedFiles(b)
  {
  }

  lemma OpenedFiles(writer: Writer)
    requires writer.stage.Writing? && !writer.stage.open && writer.stage.done < |writer.plan|
    ensures StagedFiles(writer)[writer.plan[writer.stage.done].0 := Partial] ==
      StagedFiles(writer.(stage := Writing(writer.stage.done, true)))
  {
  }

  lemma ClosedFiles(writer: Writer)
    requires writer.stage.Writing? && writer.stage.open && writer.stage.done < |writer.plan|
    ensures StagedFiles(writer)[writer.plan[writer.stage.done].0 := writer.plan[writer.stage.done].1] ==
      StagedFiles(writer.(stage := Writing(writer.stage.done + 1, false)))
  {
    WriteStep(writer);
  }

  // ---------------------------------------------------------------- over every run

  ghost predicate IsRun(states: seq<State>, events: seq<Event>) {
    && |states| == |events| + 1 && Initial(states[0])
    && forall i :: 0 <= i < |events| ==> Leads(states, events, i)
  }

  ghost predicate Leads(states: seq<State>, events: seq<Event>, i: nat)
    requires |states| == |events| + 1 && i < |events|
  {
    Enabled(states[i], events[i]) && states[i + 1] == Apply(states[i], events[i])
  }

  lemma {:induction false} RunKeepsInv(states: seq<State>, events: seq<Event>, i: nat)
    requires IsRun(states, events) && i < |states|
    ensures Inv(states[i])
  {
    hide Inv, Enabled, Apply, Initial;
    if i > 0 {
      RunKeepsInv(states, events, i - 1);
      assert Leads(states, events, i - 1);
      StepKeepsInv(states[i - 1], events[i - 1]);
    } else {
      InitialInv(states[0]);
    }
  }

  lemma InitialInv(s: State)
    requires Initial(s)
    ensures Inv(s)
  {}

  /** Every manifest entry's file holds a shard of exactly that kind and type. */
  ghost predicate EntriesHaveShards(dir: Dir, entries: seq<ManifestType>, kind: string) {
    forall i :: 0 <= i < |entries| ==>
      && entries[i].path in dir && dir[entries[i].path].ShardFile?
      && dir[entries[i].path].shard.kind == kind && dir[entries[i].path].shard.typeName == entries[i].typeName
  }

  lemma CacheHasShards(dir: Dir, resp: Response)
    requires CacheHolds(dir, resp)
    ensures EntriesHaveShards(dir, dir[MANIFEST_PATH].manifest.resources, KIND_RESOURCE)
    ensures EntriesHaveShards(dir, dir[MANIFEST_PATH].manifest.dataSources, KIND_DATA_SOURCE)
  {
  }

  /** At every step of every run, crashes and concurrent writers included, the published directory
      is absent or complete: it holds some writer's whole response, and each manifest entry leads
      to its own shard. */
  lemma PublishedIsComplete(states: seq<State>, events: seq<Event>, i: nat)
    requires IsRun(states, events) && i < |states| && Final in states[i].fs
    ensures
      var dir := states[i].fs[Final];
      && Complete(states[i].writers, dir)
      && MANIFEST_PATH in dir && dir[MANIFEST_PATH].ManifestFile?
      && EntriesHaveShards(dir, dir[MANIFEST_PATH].manifest.resources, KIND_RESOURCE)
      && EntriesHaveShards(dir, dir[MANIFEST_PATH].manifest.dataSources, KIND_DATA_SOURCE)
  {
    hide CacheHolds, EntriesHaveShards;
    RunKeepsInv(states, events, i);
    var s := states[i];
    var v :| 0 <= v < |s.writers| && CacheHolds(s.fs[Final], s.writers[v].resp);
    CacheHasShards(s.fs[Final], s.writers[v].resp);
    CacheHasManifest(s.fs[Final], s.writers[v].resp);
  }

  lemma CacheHasManifest(dir: Dir, resp: Response)
    requires CacheHolds(dir, resp)
    ensures MANIFEST_PATH in dir && dir[MANIFEST_PATH].ManifestFile?
  {
  }
}
