/**
  Reads, writes and point deletes on one operator interleaved step by step. A read looks in
  the cache, reads the table, and fills the cache; a write or point delete cleans the cache
  entry and then changes the row. Any number of calls may be between two of their steps.
*/
module Concurrency {
  import opened Common
  import opened KVTable
  import opened CacheKey
  import opened KVSemantics

  /** Where a call in flight stands. A row change is `Some(v)` for a write, `None` for a delete. */
  datatype Pc =
    | Missed(k: RowKey)
    | Holding(k: RowKey, v: string, version: nat)
    | Cleaned(k: RowKey, change: Option<string>)

  /**
    `versions` counts the changes made to each row, and `stamps` records for each cache entry
    the version its value was read at. Both only serve to state properties.
  */
  datatype Shared = Shared(
    table: Table, cache: map<string, string>, calls: map<nat, Pc>, versions: map<RowKey, nat>, stamps: map<string, nat>)

  datatype Action =
    | ReadCache(t: nat, k: RowKey, ok: bool)
    | ReadTable(t: nat, ok: bool)
    | FillCache(t: nat, ok: bool)
    | CleanCache(t: nat, k: RowKey, change: Option<string>)
    | ChangeRow(t: nat, ok: bool)
    | Expire(entry: string)

  function Version(s: Shared, k: RowKey): nat {
    if k in s.versions then s.versions[k] else 0
  }

  predicate Enabled(a: Action, s: Shared) {
    match a
    case ReadCache(t, k, _) => t !in s.calls && k.key != ""
    case ReadTable(t, _) => t in s.calls && s.calls[t].Missed?
    case FillCache(t, _) => t in s.calls && s.calls[t].Holding?
    case CleanCache(t, k, change) => t !in s.calls && k.key != "" && (change == None ==> k.group != "")
    case ChangeRow(t, _) => t in s.calls && s.calls[t].Cleaned?
    case Expire(_) => true
  }

  function Changed(t: Table, k: RowKey, change: Option<string>): Table {
    match change
    case Some(v) => Upserted(t, k, v)
    case None => Table(Removed(t.rows, Filter(k.slug, k.group, k.key)), t.nextId)
  }

  function Step(a: Action, s: Shared): Shared
    requires Enabled(a, s)
  {
    match a
    case ReadCache(t, k, ok) =>
      if ok && Render(k) in s.cache then s else s.(calls := s.calls[t := Missed(k)])
    case ReadTable(t, ok) =>
      var k := s.calls[t].k;
      var row := Lookup(s.table.rows, k);
      if ok && row.Some? then s.(calls := s.calls[t := Holding(k, row.value, Version(s, k))])
      else s.(calls := s.calls - {t})
    case FillCache(t, ok) =>
      var h := s.calls[t];
      var s' := s.(calls := s.calls - {t});
      if ok then s'.(cache := s.cache[Render(h.k) := h.v], stamps := s.stamps[Render(h.k) := h.version]) else s'
    case CleanCache(t, k, change) =>
      s.(calls := s.calls[t := Cleaned(k, change)], cache := s.cache - {Render(k)})
    case ChangeRow(t, ok) =>
      var c := s.calls[t];
      var s' := s.(calls := s.calls - {t});
      if ok then s'.(table := Changed(s.table, c.k, c.change), versions := s.versions[c.k := Version(s, c.k) + 1]) else s'
    case Expire(entry) =>
      s.(cache := s.cache - {entry})
  }

  /** What a read returns at this step: the value, or that there is none. */
  datatype Answer = Silent | Answer(k: RowKey, value: Option<string>)

  function AnswerOf(a: Action, s: Shared): Answer
    requires Enabled(a, s)
  {
    match a
    case ReadCache(t, k, ok) => if ok && Render(k) in s.cache then Answer(k, Some(s.cache[Render(k)])) else Silent
    case ReadTable(t, ok) =>
      if ok && Lookup(s.table.rows, s.calls[t].k) == None then Answer(s.calls[t].k, None) else Silent
    case FillCache(t, _) => Answer(s.calls[t].k, Some(s.calls[t].v))
    case _ => Silent
  }

  /** No call in flight and nothing cached. */
  function Start(table: Table): Shared {
    Shared(table, map[], map[], map[], map[])
  }

  /** An execution: states with an enabled step between each and the next. */
  datatype Execution = Execution(actions: seq<Action>, states: seq<Shared>)

  ghost predicate Legal(ns: iset<Namespace>, e: Execution) {
    && |e.states| == |e.actions| + 1
    && e.states[0] == Start(e.states[0].table)
    && forall i :: 0 <= i < |e.actions| ==>
         && Enabled(e.actions[i], e.states[i])
         && e.states[i + 1] == Step(e.actions[i], e.states[i])
         && (e.actions[i].ReadCache? ==> NamespaceOf(e.actions[i].k) in ns)
  }

  /** The table held the value at the address in some state up to the given one. */
  ghost predicate HeldBy(e: Execution, n: nat, k: RowKey, v: string)
    requires n < |e.states|
  {
    exists i :: 0 <= i <= n && Lookup(e.states[i].table.rows, k) == Some(v)
  }

  lemma LegalStep(ns: iset<Namespace>, e: Execution, i: nat)
    requires Legal(ns, e) && i < |e.actions|
    ensures Enabled(e.actions[i], e.states[i]) && e.states[i + 1] == Step(e.actions[i], e.states[i])
    ensures e.actions[i].ReadCache? ==> NamespaceOf(e.actions[i].k) in ns
  {
  }

  /** Reads in flight stay in the namespaces, changes in flight name a whole address, entries are stamped. */
  ghost predicate Sound(ns: iset<Namespace>, s: Shared) {
    && (forall t :: t in s.calls && !s.calls[t].Cleaned? ==> NamespaceOf(s.calls[t].k) in ns)
    && (forall t :: t in s.calls && s.calls[t].Cleaned? ==>
          s.calls[t].k.key != "" && (s.calls[t].change == None ==> s.calls[t].k.group != ""))
    && s.cache.Keys <= s.stamps.Keys
  }

  lemma StepSound(ns: iset<Namespace>, a: Action, s: Shared)
    requires Enabled(a, s) && Sound(ns, s) && (a.ReadCache? ==> NamespaceOf(a.k) in ns)
    ensures Sound(ns, Step(a, s))
  {
  }

  lemma {:induction false} StaysSound(ns: iset<Namespace>, e: Execution, n: nat)
    requires Legal(ns, e) && n < |e.states|
    ensures Sound(ns, e.states[n])
  {
    if n > 0 {
      StaysSound(ns, e, n - 1);
      LegalStep(ns, e, n - 1);
      StepSound(ns, e.actions[n - 1], e.states[n - 1]);
    }
  }

  /** The change takes effect in this step. */
  predicate Changes(a: Action, s: Shared, k: RowKey)
    requires Enabled(a, s)
  {
    a.ChangeRow? && a.ok && s.calls[a.t].k == k
  }

  /** Only a change of the address changes its row, and counts as one. */
  lemma StepRow(ns: iset<Namespace>, a: Action, s: Shared, k: RowKey)
    requires Enabled(a, s) && Sound(ns, s)
    ensures Lookup(Step(a, s).table.rows, k) == if Changes(a, s, k) then s.calls[a.t].change else Lookup(s.table.rows, k)
    ensures Version(Step(a, s), k) == Version(s, k) + if Changes(a, s, k) then 1 else 0
  {
    if a.ChangeRow? && a.ok {
      var c := s.calls[a.t];
      match c.change {
        case Some(v) => LookupUpserted(s.table, c.k, v, k);
        case None => LookupRemoved(s.table.rows, Filter(c.k.slug, c.k.group, c.k.key), k);
      }
    }
  }

  predicate CachedAs(s: Shared, k: RowKey, v: string, version: nat) {
    Render(k) in s.cache && Render(k) in s.stamps && s.cache[Render(k)] == v && s.stamps[Render(k)] == version
  }

  /** A value of the address is in the cache, or in a read about to fill it. */
  ghost predicate Known(s: Shared, k: RowKey, v: string, version: nat) {
    || CachedAs(s, k, v, version)
    || exists t :: t in s.calls && s.calls[t] == Holding(k, v, version)
  }

  /** A value becomes known only by reading the row. */
  lemma StepKnown(ns: iset<Namespace>, a: Action, s: Shared, k: RowKey, v: string, version: nat)
    requires PrefixFree(ns) && NamespaceOf(k) in ns && Enabled(a, s) && Sound(ns, s)
    requires Known(Step(a, s), k, v, version)
    ensures Known(s, k, v, version) || (a.ReadTable? && Lookup(s.table.rows, k) == Some(v) && version == Version(s, k))
  {
    hide Header, Lookup, Changed;
    var s' := Step(a, s);
    if a.FillCache? && Render(s.calls[a.t].k) == Render(k) {
      RenderInjective(ns, s.calls[a.t].k, k);
    }
    if !CachedAs(s', k, v, version) {
      var t :| t in s'.calls && s'.calls[t] == Holding(k, v, version);
    }
  }

  // ----- Every execution: nothing is invented -----

  lemma {:induction false} KnownWasHeld(ns: iset<Namespace>, e: Execution, n: nat, k: RowKey, v: string, version: nat)
    requires PrefixFree(ns) && NamespaceOf(k) in ns && Legal(ns, e) && n < |e.states|
    requires Known(e.states[n], k, v, version)
    ensures HeldBy(e, n, k, v)
  {
    if n > 0 {
      StaysSound(ns, e, n - 1);
      LegalStep(ns, e, n - 1);
      StepKnown(ns, e.actions[n - 1], e.states[n - 1], k, v, version);
      if Known(e.states[n - 1], k, v, version) {
        KnownWasHeld(ns, e, n - 1, k, v, version);
      }
    }
  }

  /** In every interleaving, a read only returns a value that its row held at some time before. */
  lemma ReadsReturnHeldValues(ns: iset<Namespace>, e: Execution, n: nat)
    requires PrefixFree(ns) && Legal(ns, e) && n < |e.actions|
    ensures Enabled(e.actions[n], e.states[n])
    ensures var r := AnswerOf(e.actions[n], e.states[n]);
            r.Answer? && r.value.Some? ==> HeldBy(e, n, r.k, r.value.value)
  {
    var a, s := e.actions[n], e.states[n];
    StaysSound(ns, e, n);
    LegalStep(ns, e, n);
    var r := AnswerOf(a, s);
    if r.Answer? && r.value.Some? {
      var version := if a.FillCache? then s.calls[a.t].version else s.stamps[Render(r.k)];
      assert Known(s, r.k, r.value.value, version);
      KnownWasHeld(ns, e, n, r.k, r.value.value, version);
    }
  }

  // ----- Exactly which overlaps do harm -----

  /**
    Some read is about to fill this entry with one value while some change has cleaned it and
    will leave the row with another value, or with none.
  */
  ghost predicate Clash(s: Shared, k: RowKey) {
    exists t, u :: ClashOf(s, k, t, u)
  }

  predicate ClashOf(s: Shared, k: RowKey, t: nat, u: nat) {
    && t in s.calls && s.calls[t].Holding? && s.calls[t].k == k
    && u in s.calls && s.calls[u].Cleaned? && s.calls[u].k == k
    && s.calls[u].change != Some(s.calls[t].v)
  }

  /**
    Everything known about the address is its row's present value, and a value still cached
    while a change is pending is the one that the change writes.
  */
  ghost predicate Current(s: Shared, k: RowKey) {
    && (forall v, version :: Known(s, k, v, version) ==> Lookup(s.table.rows, k) == Some(v))
    && (forall t :: t in s.calls && s.calls[t].Cleaned? && s.calls[t].k == k && Render(k) in s.cache ==>
                      s.calls[t].change == Some(s.cache[Render(k)]))
  }

  lemma StepCurrent(ns: iset<Namespace>, a: Action, s: Shared, k: RowKey)
    requires PrefixFree(ns) && NamespaceOf(k) in ns && Enabled(a, s) && Sound(ns, s)
    requires Current(s, k) && !Clash(s, k)
    ensures Current(Step(a, s), k)
  {
    var s' := Step(a, s);
    StepRow(ns, a, s, k);
    forall v, version | Known(s', k, v, version)
      ensures Lookup(s'.table.rows, k) == Some(v)
    {
      StepKnown(ns, a, s, k, v, version);
      if Changes(a, s, k) && !CachedAs(s, k, v, version) {
        var t :| t in s.calls && s.calls[t] == Holding(k, v, version);
        assert !ClashOf(s, k, t, a.t);
      }
    }
    if a.FillCache? && Render(s.calls[a.t].k) == Render(k) {
      RenderInjective(ns, s.calls[a.t].k, k);
    }
    forall u | u in s'.calls && s'.calls[u].Cleaned? && s'.calls[u].k == k && Render(k) in s'.cache
      ensures s'.calls[u].change == Some(s'.cache[Render(k)])
    {
      assert a.FillCache? ==> !ClashOf(s, k, a.t, u);
    }
  }

  lemma {:induction false} StaysCurrent(ns: iset<Namespace>, e: Execution, n: nat, k: RowKey)
    requires PrefixFree(ns) && NamespaceOf(k) in ns && Legal(ns, e) && n < |e.states|
    requires forall i :: 0 <= i < n ==> !Clash(e.states[i], k)
    ensures Current(e.states[n], k)
  {
    if n > 0 {
      StaysCurrent(ns, e, n - 1, k);
      StaysSound(ns, e, n - 1);
      LegalStep(ns, e, n - 1);
      StepCurrent(ns, e.actions[n - 1], e.states[n - 1], k);
    }
  }

  /** The cached value of the address, if any, is its row's value. */
  predicate EntryTrue(s: Shared, k: RowKey) {
    Render(k) in s.cache ==> Lookup(s.table.rows, k) == Some(s.cache[Render(k)])
  }

  /** An answer given in this step about the address, a missing row included, is its row's state. */
  predicate AnswerTrue(a: Action, s: Shared, k: RowKey)
    requires Enabled(a, s)
  {
    var r := AnswerOf(a, s);
    r.Answer? && r.k == k ==> r.value == Lookup(s.table.rows, k)
  }

  /**
    If on one address no read's table-to-cache window clashes with a change's clean-to-write
    window, its cached value is its row's value in every state, and every answer about it is
    true at the moment it is given.
  */
  lemma ReadsAreCurrent(ns: iset<Namespace>, e: Execution, n: nat, k: RowKey)
    requires PrefixFree(ns) && NamespaceOf(k) in ns && Legal(ns, e) && n < |e.states|
    requires forall i :: 0 <= i < n ==> !Clash(e.states[i], k)
    ensures EntryTrue(e.states[n], k)
    ensures n < |e.actions| ==> Enabled(e.actions[n], e.states[n]) && AnswerTrue(e.actions[n], e.states[n], k)
  {
    var s := e.states[n];
    StaysCurrent(ns, e, n, k);
    StaysSound(ns, e, n);
    if Render(k) in s.cache {
      assert Known(s, k, s.cache[Render(k)], s.stamps[Render(k)]);
    }
    if n < |e.actions| {
      LegalStep(ns, e, n);
      var a := e.actions[n];
      if a.FillCache? && s.calls[a.t].k == k {
        assert Known(s, k, s.calls[a.t].v, s.calls[a.t].version);
      }
    }
  }

  function Last(e: Execution): Shared
    requires e.states != []
  {
    e.states[|e.states| - 1]
  }

  function Extended(e: Execution, a: Action): Execution
    requires e.states != [] && Enabled(a, Last(e))
  {
    Execution(e.actions + [a], e.states + [Step(a, Last(e))])
  }

  /** A step by which a call that has started completes. */
  predicate Completes(a: Action) {
    (a.ChangeRow? || a.FillCache?) && a.ok
  }

  lemma ExtendedLegal(ns: iset<Namespace>, e: Execution, a: Action)
    requires Legal(ns, e) && Enabled(a, Last(e)) && Completes(a)
    ensures Legal(ns, Extended(e, a))
  {
  }

  /** From a clash, the change and then the read need only complete: the answer and the entry are false. */
  lemma ClashGoesStale(ns: iset<Namespace>, e: Execution, k: RowKey, t: nat, u: nat) returns (written: Execution, filled: Execution)
    requires Legal(ns, e) && ClashOf(Last(e), k, t, u)
    ensures Enabled(ChangeRow(u, true), Last(e)) && written == Extended(e, ChangeRow(u, true)) && Legal(ns, written)
    ensures Enabled(FillCache(t, true), Last(written)) && filled == Extended(written, FillCache(t, true)) && Legal(ns, filled)
    ensures !AnswerTrue(FillCache(t, true), Last(written), k) && !EntryTrue(Last(filled), k)
    ensures Last(filled).calls == Last(e).calls - {t, u}
  {
    hide Header, Lookup, Upserted, Removed;
    var s := Last(e);
    StaysSound(ns, e, |e.actions|);
    StepRow(ns, ChangeRow(u, true), s, k);
    written := Extended(e, ChangeRow(u, true));
    ExtendedLegal(ns, e, ChangeRow(u, true));
    StaysSound(ns, written, |written.actions|);
    StepRow(ns, FillCache(t, true), Last(written), k);
    filled := Extended(written, FillCache(t, true));
    ExtendedLegal(ns, written, FillCache(t, true));
  }

  function Prefix(e: Execution, n: nat): Execution
    requires n <= |e.actions| && |e.states| == |e.actions| + 1
  {
    Execution(e.actions[..n], e.states[..n + 1])
  }

  /**
    The executions that some discipline on the calls lets happen. It may decide which calls
    start, and when; it cannot keep a call that has started from completing.
  */
  ghost predicate Discipline(ns: iset<Namespace>, allowed: iset<Execution>) {
    && (forall e :: e in allowed ==> Legal(ns, e))
    && (forall e, n: nat :: e in allowed && n <= |e.actions| ==> Prefix(e, n) in allowed)
    && (forall e, a :: e in allowed && Completes(a) && Enabled(a, Last(e)) ==> Extended(e, a) in allowed)
  }

  ghost predicate ClashFree(allowed: iset<Execution>, k: RowKey) {
    forall e :: e in allowed && e.states != [] ==> !Clash(Last(e), k)
  }

  ghost predicate EntriesTrue(allowed: iset<Execution>, k: RowKey) {
    forall e :: e in allowed && e.states != [] ==> EntryTrue(Last(e), k)
  }

  ghost predicate AnswersTrue(allowed: iset<Execution>, k: RowKey) {
    forall e, a :: e in allowed && e.states != [] && Enabled(a, Last(e)) && Extended(e, a) in allowed ==>
      AnswerTrue(a, Last(e), k)
  }

  lemma ClashFreePrefixes(ns: iset<Namespace>, allowed: iset<Execution>, e: Execution, k: RowKey)
    requires Discipline(ns, allowed) && ClashFree(allowed, k) && e in allowed
    ensures forall i :: 0 <= i < |e.states| ==> !Clash(e.states[i], k)
  {
    forall i | 0 <= i < |e.states|
      ensures !Clash(e.states[i], k)
    {
      assert Prefix(e, i) in allowed && Last(Prefix(e, i)) == e.states[i];
    }
  }

  lemma ClashFreeIsTrue(ns: iset<Namespace>, allowed: iset<Execution>, k: RowKey)
    requires PrefixFree(ns) && NamespaceOf(k) in ns && Discipline(ns, allowed) && ClashFree(allowed, k)
    ensures EntriesTrue(allowed, k) && AnswersTrue(allowed, k)
  {
    forall e | e in allowed
      ensures EntryTrue(Last(e), k)
    {
      ClashFreePrefixes(ns, allowed, e, k);
      ReadsAreCurrent(ns, e, |e.actions|, k);
    }
    forall e, a | e in allowed && Enabled(a, Last(e)) && Extended(e, a) in allowed
      ensures AnswerTrue(a, Last(e), k)
    {
      var after := Extended(e, a);
      ClashFreePrefixes(ns, allowed, after, k);
      ReadsAreCurrent(ns, after, |e.actions|, k);
      assert after.actions[|e.actions|] == a && after.states[|e.actions|] == Last(e);
    }
  }

  /**
    Under every discipline on the calls, one address's entry is always its row's value iff
    every answer about the address is true, and iff no clash on it is ever reached.
  */
  lemma TrueIffClashFree(ns: iset<Namespace>, allowed: iset<Execution>, k: RowKey)
    requires PrefixFree(ns) && NamespaceOf(k) in ns && Discipline(ns, allowed)
    ensures EntriesTrue(allowed, k) <==> ClashFree(allowed, k)
    ensures AnswersTrue(allowed, k) <==> ClashFree(allowed, k)
  {
    if e :| e in allowed && Clash(Last(e), k) {
      var t, u :| ClashOf(Last(e), k, t, u);
      var written, filled := ClashGoesStale(ns, e, k, t, u);
      assert written in allowed && filled in allowed;
    } else {
      ClashFreeIsTrue(ns, allowed, k);
    }
  }

  /** A lock on one address: its calls run one at a time, while all others interleave freely. */
  ghost predicate Locked(ns: iset<Namespace>, e: Execution, k: RowKey) {
    && Legal(ns, e)
    && forall i :: 0 <= i < |e.states| ==> OneAtMost(e.states[i], k)
  }

  predicate OneAtMost(s: Shared, k: RowKey) {
    forall t, u :: t in s.calls && u in s.calls && s.calls[t].k == k && s.calls[u].k == k ==> t == u
  }

  /** The lock is such a discipline, and one that makes every entry and every answer true. */
  lemma LockIsEnough(ns: iset<Namespace>, k: RowKey)
    requires PrefixFree(ns) && NamespaceOf(k) in ns
    ensures var allowed := iset e | Locked(ns, e, k); Discipline(ns, allowed) && EntriesTrue(allowed, k) && AnswersTrue(allowed, k)
  {
    hide Header, Lookup, Changed;
    var allowed := iset e | Locked(ns, e, k);
    forall e, a | e in allowed && Completes(a) && Enabled(a, Last(e))
      ensures Extended(e, a) in allowed
    {
      ExtendedLegal(ns, e, a);
      assert OneAtMost(Last(e), k) && OneAtMost(Step(a, Last(e)), k);
    }
    forall e | e in allowed
      ensures !Clash(Last(e), k)
    {
      assert OneAtMost(Last(e), k);
    }
    TrueIffClashFree(ns, allowed, k);
  }

  // ----- Exactly which entries are stale -----

  /** A value read at the row's present version is the row's value. */
  lemma {:induction false} KnownIsDated(ns: iset<Namespace>, e: Execution, n: nat, k: RowKey, v: string, version: nat)
    requires PrefixFree(ns) && NamespaceOf(k) in ns && Legal(ns, e) && n < |e.states|
    requires Known(e.states[n], k, v, version)
    ensures var s := e.states[n];
            version <= Version(s, k) && (version == Version(s, k) ==> Lookup(s.table.rows, k) == Some(v))
  {
    if n > 0 {
      StaysSound(ns, e, n - 1);
      LegalStep(ns, e, n - 1);
      StepRow(ns, e.actions[n - 1], e.states[n - 1], k);
      StepKnown(ns, e.actions[n - 1], e.states[n - 1], k, v, version);
      if Known(e.states[n - 1], k, v, version) {
        KnownIsDated(ns, e, n - 1, k, v, version);
      }
    }
  }

  /** No write gives the address a value that it held before. */
  ghost predicate NeverRewrites(e: Execution, n: nat, k: RowKey)
    requires |e.states| == |e.actions| + 1 && n < |e.states|
  {
    forall i :: 0 <= i < n && Enabled(e.actions[i], e.states[i]) && Changes(e.actions[i], e.states[i], k) ==>
      var change := e.states[i].calls[e.actions[i].t].change;
      change.Some? ==> !HeldBy(e, i, k, change.value)
  }

  /** Where no value returns to the row, a value read at an earlier version is not the row's value. */
  lemma {:induction false} OldIsDifferent(ns: iset<Namespace>, e: Execution, n: nat, k: RowKey, v: string, version: nat)
    requires PrefixFree(ns) && NamespaceOf(k) in ns && Legal(ns, e) && n < |e.states| && NeverRewrites(e, n, k)
    requires Known(e.states[n], k, v, version) && version < Version(e.states[n], k)
    ensures Lookup(e.states[n].table.rows, k) != Some(v)
  {
    if n > 0 {
      var a, s := e.actions[n - 1], e.states[n - 1];
      StaysSound(ns, e, n - 1);
      LegalStep(ns, e, n - 1);
      StepRow(ns, a, s, k);
      StepKnown(ns, a, s, k, v, version);
      if Known(s, k, v, version) {
        if Changes(a, s, k) {
          KnownWasHeld(ns, e, n - 1, k, v, version);
        } else {
          OldIsDifferent(ns, e, n - 1, k, v, version);
        }
      }
    }
  }

  /**
    A stale entry was filled from a table read older than the row's last change; and where no
    value ever returns to the row, such an entry is always stale.
  */
  lemma StaleIffOutdated(ns: iset<Namespace>, e: Execution, n: nat, k: RowKey)
    requires PrefixFree(ns) && NamespaceOf(k) in ns && Legal(ns, e) && n < |e.states|
    requires Render(k) in e.states[n].cache
    ensures var s := e.states[n];
            && Render(k) in s.stamps
            && (Lookup(s.table.rows, k) != Some(s.cache[Render(k)]) ==> s.stamps[Render(k)] < Version(s, k))
            && (NeverRewrites(e, n, k) ==>
                (Lookup(s.table.rows, k) != Some(s.cache[Render(k)]) <==> s.stamps[Render(k)] < Version(s, k)))
  {
    var s := e.states[n];
    StaysSound(ns, e, n);
    var v, version := s.cache[Render(k)], s.stamps[Render(k)];
    assert Known(s, k, v, version);
    KnownIsDated(ns, e, n, k, v, version);
    if NeverRewrites(e, n, k) && version < Version(s, k) {
      OldIsDifferent(ns, e, n, k, v, version);
    }
  }

  // ----- The steps are the calls -----

  /** What a call sees of the shared state when it runs alone. */
  function Alone(s: Shared, ttl: int): State {
    State(s.table, s.cache, ttl, 0, 0)
  }

  /** What the steps of a read return when they run back to back: the first answer that one of them gives. */
  function AnswerAlone(t: nat, k: RowKey, env: Env, s: Shared): Answer
    requires t !in s.calls && k.key != ""
  {
    var a1 := ReadCache(t, k, env.cacheReadOk);
    var s1 := Step(a1, s);
    if t !in s1.calls then AnswerOf(a1, s)
    else
      var a2 := ReadTable(t, env.dbOk);
      var s2 := Step(a2, s1);
      if t !in s2.calls then AnswerOf(a2, s1) else AnswerOf(FillCache(t, env.cacheWriteOk), s2)
  }

  /** It is what the read call returns; a failed statement gives no answer. */
  lemma ReadAnswersAreTheCall(t: nat, k: RowKey, env: Env, ttl: int, s: Shared)
    requires t !in s.calls && k.key != "" && ttl >= 0
    ensures var r := GetCall(k.slug, false, k.group, k.key, env, Alone(s, ttl)).result;
            AnswerAlone(t, k, env, s) ==
            match r
            case Success(v) => Answer(k, Some(v))
            case Failure(e) => if e == NotFound then Answer(k, None) else Silent
  {
  }

  /** A read whose steps run back to back does what the read call does. */
  lemma ReadStepsAreTheCall(t: nat, k: RowKey, env: Env, ttl: int, s: Shared)
    requires t !in s.calls && k.key != "" && ttl >= 0
    ensures var s1 := Step(ReadCache(t, k, env.cacheReadOk), s);
            var s2 := if t in s1.calls then Step(ReadTable(t, env.dbOk), s1) else s1;
            var s3 := if t in s2.calls then Step(FillCache(t, env.cacheWriteOk), s2) else s2;
            var call := GetCall(k.slug, false, k.group, k.key, env, Alone(s, ttl));
            s3.table == call.state.table && s3.cache == call.state.cache && s3.calls == s.calls
  {
    assert s.calls[t := Missed(k)] - {t} == s.calls;
  }

  /** A write or point delete whose steps run back to back does what its call does. */
  lemma ChangeStepsAreTheCall(t: nat, k: RowKey, change: Option<string>, env: Env, ttl: int, s: Shared)
    requires t !in s.calls && k.key != "" && (change == None ==> k.group != "")
    requires ttl >= 0 && env.cacheDelOk
    ensures var s1 := Step(CleanCache(t, k, change), s);
            var found := Lookup(s.table.rows, k).Some?;
            var s2 := Step(ChangeRow(t, env.dbOk && (change == None || found || env.insertOk)), s1);
            var call := match change
                        case Some(v) => SetCall(k.slug, false, k.group, k.key, v, env, Alone(s, ttl)).state
                        case None => DelCall(k.slug, false, k.group, k.key, env, Alone(s, ttl)).state;
            s2.table == call.table && s2.cache == call.cache && s2.calls == s.calls
  {
    AffectedIffPresent(s.table.rows, k);
    assert s.calls[t := Cleaned(k, change)] - {t} == s.calls;
  }

  /** The overlap that goes wrong: a read fills the cache after a write that it did not see. */
  lemma OverlapGoesStale(k: RowKey, v: string, w: string) returns (e: Execution)
    requires k.key != "" && v != w
    ensures Legal(iset{NamespaceOf(k)}, e)
    ensures Last(e).calls == map[] && !EntryTrue(Last(e), k)
  {
    var s0 := Start(Table([Row(0, k, v)], 1));
    var a0, a1, a2 := ReadCache(1, k, true), ReadTable(1, true), CleanCache(2, k, Some(w));
    var s1 := Step(a0, s0);
    var s2 := Step(a1, s1);
    var s3 := Step(a2, s2);
    var overlapping := Execution([a0, a1, a2], [s0, s1, s2, s3]);
    assert s3.calls == map[1 := Holding(k, v, 0), 2 := Cleaned(k, Some(w))];
    var written;
    written, e := ClashGoesStale(iset{NamespaceOf(k)}, overlapping, k, 1, 2);
  }
}
