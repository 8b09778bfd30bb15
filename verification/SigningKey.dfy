/**
  First boot of several instances at once, EnsureSigningKey of internal/core/auth/keys.go: each
  instance reads the store, and if it is empty makes or imports a key, inserts it if none is
  there yet, and reads again.  Every access to the store is one step; steps interleave freely,
  and any of them may fail.
 */
module SigningKey {
  type Key = nat

  /** What the store holds: a key as written, or text that is no key. */
  datatype Pem = Encoded(key: Key) | Garbage(text: string)

  datatype Option<T> = None | Some(value: T)

  datatype Failure = StoreFailed | BadStoredKey | ImportFailed

  /** Where an instance is, with what it holds. */
  datatype Instance =
    | Starting
    | Making
    | Inserting(key: Key)
    | Rereading
    | Returned(key: Key)
    | Failed(why: Failure)

  datatype State = State(store: Option<Pem>, instances: seq<Instance>)

  function Parse(p: Pem): Option<Key> { if p.Encoded? then Some(p.key) else None }

  /** What an instance does with the text it read. */
  function Parsed(p: Pem): Instance {
    if Parse(p).Some? then Returned(Parse(p).value) else Failed(BadStoredKey)
  }

  /** The first read. */
  ghost predicate Read(s: State, i: Instance, i': Instance) {
    i == Starting && (
      || i' == Failed(StoreFailed)
      || (s.store.None? && i' == Making)
      || (s.store.Some? && i' == Parsed(s.store.value)))
  }

  /** Importing the legacy key if there is one, or generating: any key may come of it. */
  ghost predicate Make(i: Instance, i': Instance) {
    i == Making && (i'.Inserting? || i' == Failed(ImportFailed))
  }

  /** Stores the key if none is stored; a lost race is no error, and the answer may be lost. */
  ghost predicate Insert(s: State, i: Instance, s': State, i': Instance) {
    && i.Inserting?
    && (s'.store == s.store || (s.store.None? && s'.store == Some(Encoded(i.key))))
    && (i' == Failed(StoreFailed)
        || (i' == Rereading && s'.store == if s.store.None? then Some(Encoded(i.key)) else s.store))
  }

  /** The second read; finding nothing there is an error like any other. */
  ghost predicate Reread(s: State, i: Instance, i': Instance) {
    i == Rereading && (
      || i' == Failed(StoreFailed)
      || (s.store.Some? && i' == Parsed(s.store.value)))
  }

  /** One instance takes one step. */
  ghost predicate StepOf(s: State, n: nat, s': State) {
    && n < |s.instances| == |s'.instances|
    && s'.instances == s.instances[n := s'.instances[n]]
    && var i, i' := s.instances[n], s'.instances[n];
       || (s'.store == s.store && (Read(s, i, i') || Make(i, i') || Reread(s, i, i')))
       || Insert(s, i, s', i')
  }

  ghost predicate Next(s: State, s': State) { exists n: nat :: StepOf(s, n, s') }

  ghost predicate Init(s: State) { forall n :: 0 <= n < |s.instances| ==> s.instances[n] == Starting }

  ghost predicate IsRun(run: seq<State>) {
    && run != [] && Init(run[0])
    && forall k :: 0 < k < |run| ==> Next(run[k - 1], run[k])
  }

  // ----- What every step keeps -------------------------------------------------------------------

  /** Whoever has returned holds the stored key, and whoever is past the insert can read one. */
  ghost predicate Agreed(s: State) {
    forall n :: 0 <= n < |s.instances| ==>
      && (s.instances[n].Returned? ==> s.store.Some? && Parse(s.store.value) == Some(s.instances[n].key))
      && (s.instances[n].Rereading? ==> s.store.Some?)
      && (s.instances[n] == Failed(BadStoredKey) ==> s.store.Some? && Parse(s.store.value) == None)
  }

  lemma StepKeepsStore(s: State, s': State)
    requires Next(s, s') && s.store.Some?
    ensures s'.store == s.store
  {
  }

  lemma StepKeepsAgreement(s: State, s': State)
    requires Next(s, s') && Agreed(s)
    ensures Agreed(s')
  {
    var n: nat :| StepOf(s, n, s');
    forall m | 0 <= m < |s'.instances|
      ensures (s'.instances[m].Returned? ==>
                 s'.store.Some? && Parse(s'.store.value) == Some(s'.instances[m].key))
        && (s'.instances[m].Rereading? ==> s'.store.Some?)
        && (s'.instances[m] == Failed(BadStoredKey) ==> s'.store.Some? && Parse(s'.store.value) == None)
    {
      if m != n { assert s'.instances[m] == s.instances[m]; }
    }
  }

  lemma {:induction false} RunsAgree(run: seq<State>)
    requires IsRun(run)
    ensures Agreed(run[|run| - 1])
  {
    if |run| > 1 {
      RunsAgree(run[..|run| - 1]);
      StepKeepsAgreement(run[|run| - 2], run[|run| - 1]);
    }
  }

  lemma {:induction false} StoreIsForGood(run: seq<State>, k: nat, m: nat)
    requires IsRun(run) && k <= m < |run| && run[k].store.Some?
    ensures run[m].store == run[k].store
    decreases m - k
  {
    if k < m {
      StepKeepsStore(run[k], run[k + 1]);
      StoreIsForGood(run, k + 1, m);
    }
  }

  // ----- The first writer wins -------------------------------------------------------------------

  /** Whenever two instances return, and however the steps interleave, they return the same key,
      and it is the one the store holds from then on. */
  lemma OneKeyForAll(run: seq<State>, k: nat, m: nat, a: nat, b: nat)
    requires IsRun(run) && k <= m < |run|
    requires a < |run[k].instances| && run[k].instances[a].Returned?
    requires b < |run[m].instances| && run[m].instances[b].Returned?
    ensures run[k].instances[a].key == run[m].instances[b].key
    ensures run[m].store == run[k].store && run[k].store.Some?
    ensures Parse(run[k].store.value) == Some(run[k].instances[a].key)
  {
    PrefixIsRun(run, k);
    PrefixIsRun(run, m);
    RunsAgree(run[..k + 1]);
    RunsAgree(run[..m + 1]);
    StoreIsForGood(run, k, m);
  }

  lemma PrefixIsRun(run: seq<State>, k: nat)
    requires IsRun(run) && k < |run|
    ensures IsRun(run[..k + 1])
  {
  }

  /** A store that began empty never holds anything but a key, so nobody fails to parse it. */
  lemma {:induction false} EmptyStoreIsNeverSpoiled(run: seq<State>)
    requires IsRun(run) && run[0].store.None?
    ensures var s := run[|run| - 1];
      && (s.store.Some? ==> s.store.value.Encoded?)
      && forall n :: 0 <= n < |s.instances| ==> s.instances[n] != Failed(BadStoredKey)
  {
    if |run| > 1 {
      EmptyStoreIsNeverSpoiled(run[..|run| - 1]);
      assert Next(run[|run| - 2], run[|run| - 1]);
    }
    RunsAgree(run);
  }

  /** A key every instance imports is the key every instance returns: tokens signed before the
      upgrade stay valid. */
  ghost predicate Imports(run: seq<State>, key: Key) {
    forall k, n :: 0 <= k < |run| && 0 <= n < |run[k].instances| && run[k].instances[n].Inserting? ==>
      run[k].instances[n].key == key
  }

  lemma {:induction false} ImportedKeyIsKept(run: seq<State>, key: Key)
    requires IsRun(run) && run[0].store.None? && Imports(run, key)
    ensures var s := run[|run| - 1];
      && (s.store.Some? ==> s.store.value == Encoded(key))
      && forall n :: 0 <= n < |s.instances| && s.instances[n].Returned? ==> s.instances[n].key == key
  {
    if |run| > 1 {
      ImportedKeyIsKept(run[..|run| - 1], key);
      var s, s' := run[|run| - 2], run[|run| - 1];
      var n: nat :| StepOf(s, n, s');
      assert s.instances[n].Inserting? ==> s.instances[n].key == key;
    }
    RunsAgree(run);
  }

  // ----- Nobody waits ------------------------------------------------------------------------------

  /** Steps an instance still has to take, at most. */
  function StepsLeft(i: Instance): nat {
    match i case Starting => 4 case Making => 3 case Inserting(_) => 2 case Rereading => 1 case _ => 0
  }

  /** Until it has answered, an instance can always take a step that is no failure: to find nothing
      at the second read it would have to be stuck, and it never is. */
  lemma NeverStuck(run: seq<State>, n: nat)
    requires IsRun(run)
    requires var s := run[|run| - 1]; n < |s.instances| && StepsLeft(s.instances[n]) > 0
    ensures var s := run[|run| - 1]; exists s' ::
      && StepOf(s, n, s') && StepsLeft(s'.instances[n]) < StepsLeft(s.instances[n])
      && s'.instances[n] != Failed(StoreFailed) && s'.instances[n] != Failed(ImportFailed)
  {
    var s := run[|run| - 1];
    RunsAgree(run);
    var i := s.instances[n];
    var i' :=
      match i
      case Starting => if s.store.None? then Making else Parsed(s.store.value)
      case Making => Inserting(0)
      case Inserting(_) => Rereading
      case Rereading => Parsed(s.store.value)
      case _ => i;
    var store := if i.Inserting? && s.store.None? then Some(Encoded(i.key)) else s.store;
    var s' := State(store, s.instances[n := i']);
    assert StepOf(s, n, s');
  }

  /** Every step uses one up, so an instance answers within four steps of its own. */
  lemma StepsRunOut(s: State, n: nat, s': State)
    requires StepOf(s, n, s')
    ensures StepsLeft(s'.instances[n]) < StepsLeft(s.instances[n])
  {
  }
}
