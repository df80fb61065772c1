/** Records, threads and bindings over ticks: what stays linked, what stays broken, and which threads requests name. */
module ThreadOwnership {
  import opened Basics
  import opened IssueScheduler
  import opened SchedulerRuns

  /** The record names a thread that is not bound to its issue. */
  ghost predicate Disowned(s: Store, key: string) {
    key in s.metas && s.metas[key].threadId > 0 && !Owns(s, key, s.metas[key].threadId)
  }

  /** The record of `other` names a thread that is bound to the issue. */
  ghost predicate Reaches(s: Store, other: string, key: string) {
    && other in s.metas && s.metas[other].threadId > 0
    && s.metas[other].threadId in s.bindings && s.bindings[s.metas[other].threadId] == key
  }

  /** The only thread of the issue that another record may name is the one its own record names. */
  ghost predicate NoStrayThread(s: Store, key: string) {
    forall other :: other != key && Reaches(s, other, key) ==>
      key in s.metas && s.metas[key].threadId == s.metas[other].threadId
  }

  /** Every binding is mirrored by the record of its issue. */
  ghost predicate BackLinked(s: Store) {
    forall t: nat :: t > 0 && t in s.bindings ==> s.bindings[t] in s.metas && s.metas[s.bindings[t]].threadId == t
  }

  /** Every record but this one owns its thread. */
  ghost predicate OthersOwn(s: Store, key: string) {
    forall other :: other in s.metas && other != key ==> Owns(s, other, s.metas[other].threadId)
  }

  lemma BackLinkedHasNoStrayThread(s: Store, key: string)
    requires BackLinked(s)
    ensures NoStrayThread(s, key)
  {
  }

  lemma OwnedHasNoStrayThread(s: Store, key: string)
    requires OthersOwn(s, key)
    ensures NoStrayThread(s, key)
  {
    forall other | other != key && other in s.metas ensures !Reaches(s, other, key) {
      assert Owns(s, other, s.metas[other].threadId);
    }
  }

  lemma ConsistentIsLinked(s: Store, key: string)
    requires Consistent(s)
    ensures NoStrayThread(s, key) && !Disowned(s, key)
  {
    OwnedHasNoStrayThread(s, key);
  }

  /** No record is dropped and none loses its thread. */
  ghost predicate ThreadsStay(s: Store, t: Store) {
    forall key :: key in s.metas ==>
      key in t.metas && (s.metas[key].threadId > 0 ==> t.metas[key].threadId == s.metas[key].threadId)
  }

  ghost predicate KeepsLinks(s: Store, t: Store, key: string) {
    && ThreadsStay(s, t)
    && (NoStrayThread(s, key) ==> NoStrayThread(t, key))
    && (Disowned(t, key) <==> Disowned(s, key))
  }

  lemma KeepsLinksIsTransitive(s: Store, t: Store, u: Store, key: string)
    requires KeepsLinks(s, t, key) && KeepsLinks(t, u, key)
    ensures KeepsLinks(s, u, key)
  {
    forall k | k in s.metas
      ensures k in u.metas && (s.metas[k].threadId > 0 ==> u.metas[k].threadId == s.metas[k].threadId)
    {
      assert k in t.metas;
    }
  }

  // ----- the steps of a round -----

  /** Records, their threads and the bindings are the same. */
  ghost predicate SameThreads(s: Store, t: Store) {
    && t.metas.Keys == s.metas.Keys && t.bindings == s.bindings
    && forall key :: key in s.metas ==> t.metas[key].threadId == s.metas[key].threadId
  }

  lemma SameThreadsKeepLinks(s: Store, t: Store, key: string)
    requires SameThreads(s, t)
    ensures KeepsLinks(s, t, key)
  {
    forall k ensures k in t.metas <==> k in s.metas {
      assert k in t.metas.Keys <==> k in s.metas.Keys;
    }
    if NoStrayThread(s, key) {
      forall other | other != key && Reaches(t, other, key)
        ensures key in t.metas && t.metas[key].threadId == t.metas[other].threadId
      {
        assert Reaches(s, other, key);
      }
    }
  }

  lemma EnsureKeepsNoStrayThread(s: Store, at: string, created: nat, key: string)
    requires at in s.metas && NoStrayThread(s, key)
    ensures NoStrayThread(EnsureThread(s, at, created), key)
  {
    var t := EnsureThread(s, at, created);
    forall other | other != key && Reaches(t, other, key)
      ensures key in t.metas && t.metas[key].threadId == t.metas[other].threadId
    {
      assert Reaches(s, other, key) || t.metas[other].threadId == created;
    }
  }

  lemma EnsureKeepsLinks(s: Store, at: string, created: nat, key: string)
    requires at in s.metas
    ensures KeepsLinks(s, EnsureThread(s, at, created), key)
  {
    if NoStrayThread(s, key) {
      EnsureKeepsNoStrayThread(s, at, created, key);
    }
  }

  lemma EnqueueKeepsLinks(s: Store, w: World, at: string, threadId: nat, key: string)
    requires at in s.metas
    ensures KeepsLinks(s, Enqueue(s, w, at, threadId), key)
  {
    SameThreadsKeepLinks(s, Enqueue(s, w, at, threadId), key);
  }

  lemma DispatchKeepsLinks(
    s: Store, w: World, at: string, threadId: nat, status: string, projectEnabled: bool, key: string)
    requires at in s.metas && at in s.closed
    ensures KeepsLinks(s, Dispatch(s, w, at, threadId, status, projectEnabled), key)
  {
    if threadId == 0 {
      var bound := EnsureThread(s, at, OfferOf(w.offeredAgain, at));
      EnsureKeepsLinks(s, at, OfferOf(w.offeredAgain, at), key);
      EnqueueKeepsLinks(bound, w, at, bound.metas[at].threadId, key);
      KeepsLinksIsTransitive(s, bound, Enqueue(bound, w, at, bound.metas[at].threadId), key);
    } else {
      SameThreadsKeepLinks(s, s, key);
      EnqueueKeepsLinks(s, w, at, threadId, key);
    }
  }

  lemma ReactKeepsLinks(
    s: Store, w: World, at: string, threadId: nat, status: string, projectEnabled: bool, key: string)
    requires at in s.metas && at in s.closed
    ensures KeepsLinks(s, React(s, w, at, threadId, status, projectEnabled), key)
  {
    if Startable(status) {
      DispatchKeepsLinks(s, w, at, threadId, status, projectEnabled, key);
    } else {
      SameThreadsKeepLinks(s, React(s, w, at, threadId, status, projectEnabled), key);
    }
  }

  lemma ActKeepsLinks(s: Store, w: World, at: string, seen: Meta, projectEnabled: bool, t: Store, key: string)
    requires Acts(s, w, at, seen, projectEnabled, t)
    ensures KeepsLinks(s, t, key)
  {
    if seen.threadId == 0 && !Finished(seen.status) {
      var bound := EnsureThread(s, at, OfferOf(w.offered, at));
      EnsureKeepsLinks(s, at, OfferOf(w.offered, at), key);
      ReactKeepsLinks(bound, w, at, bound.metas[at].threadId, seen.status, projectEnabled, key);
      KeepsLinksIsTransitive(s, bound, t, key);
    } else {
      ReactKeepsLinks(s, w, at, seen.threadId, seen.status, projectEnabled, key);
    }
  }

  lemma SyncItemKeepsLinks(s: Store, w: World, item: BoardItem, key: string)
    ensures KeepsLinks(s, SyncItem(s, w, item), key)
  {
    var t := SyncItem(s, w, item);
    if NoStrayThread(s, key) {
      forall other | other != key && Reaches(t, other, key)
        ensures key in t.metas && t.metas[key].threadId == t.metas[other].threadId
      {
        assert Reaches(s, other, key);
      }
    }
  }

  lemma {:induction false} SyncKeepsLinks(s: Store, worlds: nat -> World, items: seq<BoardItem>, key: string)
    ensures KeepsLinks(s, SyncItems(s, worlds, items), key)
  {
    if items == [] {
      SameThreadsKeepLinks(s, s, key);
    } else {
      var n := |items| - 1;
      SyncKeepsLinks(s, worlds, items[..n], key);
      SyncItemKeepsLinks(SyncItems(s, worlds, items[..n]), worlds(n), items[n], key);
      KeepsLinksIsTransitive(s, SyncItems(s, worlds, items[..n]), SyncItems(s, worlds, items), key);
    }
  }

  lemma {:induction false} TraceKeepsLinks(
    states: seq<Store>, worlds: nat -> World, keys: seq<string>, n: nat, m: nat, projectEnabled: bool, key: string)
    requires Trace(states, worlds, keys, projectEnabled) && n <= m <= |keys|
    ensures KeepsLinks(states[n], states[m], key)
    decreases m
  {
    if n == m {
      SameThreadsKeepLinks(states[n], states[n], key);
    } else {
      TraceKeepsLinks(states, worlds, keys, n, m - 1, projectEnabled, key);
      ActKeepsLinks(
        states[m - 1], worlds(m - 1), keys[m - 1], states[0].metas[keys[m - 1]], projectEnabled, states[m], key);
      KeepsLinksIsTransitive(states[n], states[m - 1], states[m], key);
    }
  }

  /** Ticks give threads to records that have none; they neither heal nor disown a record, and let no stray thread in. */
  lemma {:induction false} TicksKeepLinks(s: Store, inputs: seq<TickInput>, projectEnabled: bool, key: string)
    ensures KeepsLinks(s, Ticks(s, inputs, projectEnabled), key)
    decreases |inputs|
  {
    if inputs == [] {
      SameThreadsKeepLinks(s, s, key);
    } else {
      TickKeepsLinks(s, inputs[0], projectEnabled, key);
      var t := Tick(s, inputs[0], projectEnabled);
      TicksKeepLinks(t, inputs[1..], projectEnabled, key);
      KeepsLinksIsTransitive(s, t, Ticks(s, inputs, projectEnabled), key);
    }
  }

  lemma TickKeepsLinks(s: Store, input: TickInput, projectEnabled: bool, key: string)
    ensures KeepsLinks(s, Tick(s, input, projectEnabled), key)
  {
    var keys := SyncedKeys(input.Items());
    SyncKeepsLinks(s, input.whileSyncing, input.Items(), key);
    var states := TickIsATrace(s, input, projectEnabled);
    TraceKeepsLinks(states, input.whileActing, keys, 0, |keys|, projectEnabled, key);
    KeepsLinksIsTransitive(s, states[0], states[|keys|], key);
  }

  // ----- the threads requests name -----

  /** The request is for an issue with a record, and names the thread of that record. */
  ghost predicate Names(s: Store, r: Request) {
    r.issueKey != "" && r.issueKey in s.metas && r.threadId > 0 && s.metas[r.issueKey].threadId == r.threadId
  }

  /** The requests made between s and t name the threads of their records in t. */
  ghost predicate NewOnesName(s: Store, t: Store) {
    s.requests <= t.requests && forall j :: |s.requests| <= j < |t.requests| ==> Names(t, t.requests[j])
  }

  lemma NamesStays(s: Store, t: Store, r: Request)
    requires Names(s, r) && ThreadsStay(s, t)
    ensures Names(t, r)
  {
  }

  /** Threads stay, and at most one request is added, which names its record's thread. */
  ghost predicate AsksNamed(s: Store, t: Store, r: Request) {
    ThreadsStay(s, t) && (t.requests == s.requests || (t.requests == s.requests + [r] && Names(t, r)))
  }

  lemma OneMoreNamed(s: Store, t: Store, u: Store, r: Request)
    requires NewOnesName(s, t) && AsksNamed(t, u, r)
    ensures NewOnesName(s, u)
  {
    forall j | |s.requests| <= j < |u.requests| ensures Names(u, u.requests[j]) {
      if j < |t.requests| {
        assert u.requests[j] == t.requests[j];
        NamesStays(t, u, t.requests[j]);
      }
    }
  }

  lemma {:induction false} SyncedKeysAreNotEmpty(items: seq<BoardItem>)
    ensures forall i :: 0 <= i < |SyncedKeys(items)| ==> SyncedKeys(items)[i] != ""
  {
    if items != [] {
      SyncedKeysAreNotEmpty(items[..|items| - 1]);
      var item := items[|items| - 1];
      assert |KeyOf(item)| >= |item.repo + "#"| >= 1;
    }
  }

  /** The request of a round, if it makes one, names the thread its issue's record then has. */
  lemma RoundNames(states: seq<Store>, worlds: nat -> World, keys: seq<string>, n: nat, projectEnabled: bool)
    requires Trace(states, worlds, keys, projectEnabled) && n < |keys| && keys[n] != ""
    ensures keys[n] in states[n + 1].metas
    ensures var r := RequestAt(states, keys, n);
      JustifiedAt(r, worlds, keys, states[0], n, projectEnabled) ==> Names(states[n + 1], r)
  {
    HasRecordAfter(states, worlds, keys, n, projectEnabled);
    TraceKeepsLinks(states, worlds, keys, 0, n + 1, projectEnabled, keys[n]);
  }

  lemma RoundAsksNamed(states: seq<Store>, worlds: nat -> World, keys: seq<string>, n: nat, projectEnabled: bool)
    returns (r: Request)
    requires Trace(states, worlds, keys, projectEnabled) && n < |keys| && keys[n] != ""
    ensures AsksNamed(states[n], states[n + 1], r)
  {
    RoundNames(states, worlds, keys, n, projectEnabled);
    TraceStepAsks(states, worlds, keys, n, projectEnabled);
    r := RequestAt(states, keys, n);
    ActKeepsLinks(states[n], worlds(n), keys[n], states[0].metas[keys[n]], projectEnabled, states[n + 1], keys[n]);
  }

  lemma {:induction false} TraceNames(
    states: seq<Store>, worlds: nat -> World, keys: seq<string>, n: nat, projectEnabled: bool)
    requires Trace(states, worlds, keys, projectEnabled) && n <= |keys|
    requires forall i :: 0 <= i < |keys| ==> keys[i] != ""
    ensures NewOnesName(states[0], states[n])
  {
    if n > 0 {
      TraceNames(states, worlds, keys, n - 1, projectEnabled);
      var r := RoundAsksNamed(states, worlds, keys, n - 1, projectEnabled);
      OneMoreNamed(states[0], states[n - 1], states[n], r);
    }
  }

  lemma {:induction false} TicksName(s: Store, inputs: seq<TickInput>, projectEnabled: bool)
    ensures NewOnesName(s, Ticks(s, inputs, projectEnabled))
    decreases |inputs|
  {
    if inputs != [] {
      var keys := SyncedKeys(inputs[0].Items());
      var states := TickIsATrace(s, inputs[0], projectEnabled);
      SyncedKeysAreNotEmpty(inputs[0].Items());
      SyncRecords(s, inputs[0].whileSyncing, inputs[0].Items());
      TraceNames(states, inputs[0].whileActing, keys, |keys|, projectEnabled);
      var t := Tick(s, inputs[0], projectEnabled);
      TicksName(t, inputs[1..], projectEnabled);
      TicksKeepLinks(t, inputs[1..], projectEnabled, "");
      NewOnesNameTwice(s, t, Ticks(t, inputs[1..], projectEnabled));
    }
  }

  lemma NewOnesNameTwice(s: Store, t: Store, u: Store)
    requires NewOnesName(s, t) && NewOnesName(t, u) && ThreadsStay(t, u)
    ensures NewOnesName(s, u)
  {
    forall j | |s.requests| <= j < |u.requests| ensures Names(u, u.requests[j]) {
      if j < |t.requests| {
        assert u.requests[j] == t.requests[j];
        NamesStays(t, u, t.requests[j]);
      }
    }
  }

  /** Over any run of ticks from any store: every request names the thread its issue's record has for good, and that
      thread is bound to the issue exactly when the record was not disowned at the start. */
  lemma {:induction false} RequestsNameBoundThreadsExactlyWhen(s: Store, inputs: seq<TickInput>, projectEnabled: bool)
    ensures var t := Ticks(s, inputs, projectEnabled);
      && NewOnesName(s, t)
      && forall j :: |s.requests| <= j < |t.requests| ==>
           (Owns(t, t.requests[j].issueKey, t.requests[j].threadId) <==> !Disowned(s, t.requests[j].issueKey))
  {
    var t := Ticks(s, inputs, projectEnabled);
    TicksName(s, inputs, projectEnabled);
    forall j | |s.requests| <= j < |t.requests|
      ensures Owns(t, t.requests[j].issueKey, t.requests[j].threadId) <==> !Disowned(s, t.requests[j].issueKey)
    {
      assert Names(t, t.requests[j]);
      TicksKeepLinks(s, inputs, projectEnabled, t.requests[j].issueKey);
    }
  }
}
