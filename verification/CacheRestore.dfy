/** A published cache is not lost: it is moved aside only to be replaced or put back. */
module CacheRestore {
  import opened Common
  import opened SchemaCache
  import opened CachePublish

  /** w has moved the published cache aside, and has not yet put its own or the old one in its place. */
  predicate IsSwapping(s: State, w: nat) {
    w < |s.writers| && (s.writers[w].stage == PublishingOver || s.writers[w].stage == Restoring)
  }

  ghost predicate BackupsAreThere(s: State) {
    forall w: nat :: IsSwapping(s, w) ==> BackupOf(w) in s.fs
  }

  /** A crash in the middle of a swap, or a failing system call when the old cache is put back. */
  predicate BreaksSwap(s: State, e: Event) {
    (e.Crashes? && IsSwapping(s, e.w)) || (e.Restores? && !e.io)
  }

  lemma StepKeepsBackups(s: State, e: Event)
    requires Enabled(s, e) && BackupsAreThere(s)
    ensures BackupsAreThere(Apply(s, e))
  {
    forall w: nat | IsSwapping(Apply(s, e), w) ensures BackupOf(w) in Apply(s, e).fs {
      assert w != e.w ==> IsSwapping(s, w);
    }
  }

  /** Only a writer that starts a swap takes the published cache away, and it ends its swap with a cache
      published, unless it breaks. */
  lemma StepKeepsPublished(s: State, e: Event, w: nat)
    requires Enabled(s, e) && BackupsAreThere(s) && !BreaksSwap(s, e)
    ensures Final in s.fs ==> Final in Apply(s, e).fs || IsSwapping(Apply(s, e), e.w)
    ensures IsSwapping(s, w) ==> Final in Apply(s, e).fs || IsSwapping(Apply(s, e), w)
  {
    assert IsSwapping(s, e.w) ==> BackupOf(e.w) in s.fs;
  }

  lemma {:induction false} RunKeepsBackups(states: seq<State>, events: seq<Event>, i: nat)
    requires IsRun(states, events) && i < |states|
    ensures BackupsAreThere(states[i])
  {
    hide Enabled, Apply, BackupsAreThere;
    if i == 0 {
      assert BackupsAreThere(states[0]) by { NoSwapYet(states[0]); }
    } else {
      RunKeepsBackups(states, events, i - 1);
      assert Leads(states, events, i - 1);
      StepKeepsBackups(states[i - 1], events[i - 1]);
    }
  }

  lemma NoSwapYet(s: State)
    requires Initial(s)
    ensures BackupsAreThere(s)
  {}

  ghost predicate SomeoneSwaps(s: State) {
    exists w: nat :: IsSwapping(s, w)
  }

  /** Once a cache is published there is one from then on, but for the moment of a swap, as long as no
      swap breaks. */
  lemma {:induction false} PublishedStays(states: seq<State>, events: seq<Event>, i: nat, j: nat)
    requires IsRun(states, events) && i <= j < |states| && Final in states[i].fs
    requires forall k :: i <= k < j ==> !BreaksSwap(states[k], events[k])
    ensures Final in states[j].fs || SomeoneSwaps(states[j])
    decreases j
  {
    hide Enabled, Apply, BreaksSwap, IsSwapping;
    if i < j {
      PublishedStays(states, events, i, j - 1);
      RunKeepsBackups(states, events, j - 1);
      assert Leads(states, events, j - 1);
      var s, e := states[j - 1], events[j - 1];
      if Final in s.fs {
        StepKeepsPublished(s, e, 0);
      } else {
        var w: nat :| IsSwapping(s, w);
        StepKeepsPublished(s, e, w);
      }
    }
  }

  // ---------------------------------------------------------------- which cache it is

  lemma StepKeepsBackup(s: State, e: Event, w: nat)
    requires Enabled(s, e) && BackupsAreThere(s) && IsSwapping(s, w) && IsSwapping(Apply(s, e), w)
    ensures BackupOf(w) in Apply(s, e).fs && Apply(s, e).fs[BackupOf(w)] == s.fs[BackupOf(w)]
  {
    StepKeepsBackups(s, e);
  }

  lemma MovesAside(s: State, w: nat)
    requires Enabled(s, BacksUp(w, true)) && Final in s.fs && BackupOf(w) !in s.fs
    ensures
      var s' := Apply(s, BacksUp(w, true));
      BackupOf(w) in s'.fs && s'.fs[BackupOf(w)] == s.fs[Final]
  {}

  lemma {:induction false} BackupStays(states: seq<State>, events: seq<Event>, i: nat, j: nat, w: nat)
    requires IsRun(states, events) && i < j < |states|
    requires events[i] == BacksUp(w, true) && Final in states[i].fs && BackupOf(w) !in states[i].fs
    requires forall k :: i < k <= j ==> IsSwapping(states[k], w)
    ensures BackupOf(w) in states[j].fs && states[j].fs[BackupOf(w)] == states[i].fs[Final]
    decreases j
  {
    RunKeepsBackups(states, events, j - 1);
    assert Leads(states, events, j - 1);
    hide Apply, Enabled, IsSwapping, BackupsAreThere;
    if i == j - 1 {
      MovesAside(states[i], w);
    } else {
      BackupStays(states, events, i, j - 1, w);
      StepKeepsBackup(states[j - 1], events[j - 1], w);
    }
  }

  /** A publish that fails puts back the very cache it moved aside. */
  lemma RestoresTheSame(states: seq<State>, events: seq<Event>, i: nat, j: nat, w: nat)
    requires IsRun(states, events) && i < j < |events|
    requires events[i] == BacksUp(w, true) && Final in states[i].fs && BackupOf(w) !in states[i].fs
    requires forall k :: i < k <= j ==> IsSwapping(states[k], w)
    requires events[j] == Restores(w, true) && Final !in states[j].fs
    ensures Final in states[j + 1].fs && states[j + 1].fs[Final] == states[i].fs[Final]
  {
    BackupStays(states, events, i, j, w);
    assert Leads(states, events, j);
  }

  /** A publish that succeeds leaves the writer's own whole cache, whichever way it went. */
  lemma PublishesOwn(states: seq<State>, events: seq<Event>, i: nat, w: nat)
    requires IsRun(states, events) && i < |events|
    requires events[i] == Publishes(w, true) || events[i] == PublishesOver(w, true)
    requires Final !in states[i].fs
    ensures w < |states[i].writers| && Final in states[i + 1].fs
    ensures CacheHolds(states[i + 1].fs[Final], states[i].writers[w].resp)
  {
    RunKeepsInv(states, events, i);
    assert Leads(states, events, i);
    var s := states[i];
    assert WriterOk(s, w);
    hide CacheHolds, IsRun, Inv;
  }
}
