/**
 * Table-init migrations (`migrationUtil` in src/migration.helpers.ts).
 *
 * A `MigrationTableInitMap` maps table names to a `TableInit` holding an
 * optional `create` and an optional `seed` callback. "Up" awaits, table by
 * table in key order, the table's `create` and then its `seed`; "down"
 * awaits `dropTableIfExists` for every table in reverse key order. A
 * rejected promise propagates out of the loop, so nothing after it runs
 * and nothing before it is undone.
 *
 * The database is a `Knex` object that records, in `log`, every action
 * started against it. A callback is described by how the promise it
 * returns settles; a drop settles as `dropOutcome` says for that table.
 */
module Migration {
  import opened Wrappers

  /** How an awaited promise settles. */
  datatype Outcome = Resolved | Rejected(reason: string)

  /** A `create` or `seed` callback, described by how its promise settles. */
  datatype Action = Action(settles: Outcome)

  /** `TableInit`: both callbacks are optional. */
  datatype TableInit = TableInit(create: Option<Action>, seed: Option<Action>)

  /** One key of a `MigrationTableInitMap` with its value. */
  datatype Entry = Entry(table: string, init: TableInit)

  /** A `MigrationTableInitMap`, as its entries in `Object.keys` order. */
  type TableInitMap = seq<Entry>

  /** An action started against the database. */
  datatype Event = Create(table: string) | Seed(table: string) | Drop(table: string)

  /** An action the runner would start, with how it settles. */
  datatype Call = Call(event: Event, outcome: Outcome)

  /** What a run leaves behind: the actions started, and how the run settles. */
  datatype Trace = Trace(events: seq<Event>, outcome: Outcome)

  /** `Object.keys(map)`. */
  function TableNames(m: TableInitMap): (ks: seq<string>)
    ensures |ks| == |m|
  {
    seq(|m|, i requires 0 <= i < |m| => m[i].table)
  }

  /** `s.reverse()` on a fresh array. */
  function Reverse<T>(s: seq<T>): (r: seq<T>)
    ensures |r| == |s|
    ensures forall i :: 0 <= i < |s| ==> r[i] == s[|s| - 1 - i]
  {
    if s == [] then [] else Reverse(s[1..]) + [s[0]]
  }

  function Events(cs: seq<Call>): (es: seq<Event>)
    ensures |es| == |cs|
  {
    seq(|cs|, i requires 0 <= i < |cs| => cs[i].event)
  }

  predicate AllResolved(cs: seq<Call>)
  {
    forall c :: c in cs ==> c.outcome == Resolved
  }

  /**
   * Awaiting the calls cs one after another: every call is started until
   * one rejects, and the run settles as that call did; otherwise it
   * resolves.
   */
  function Perform(cs: seq<Call>): (r: Trace)
    ensures |r.events| <= |cs|
    ensures r.outcome == Resolved <==> AllResolved(cs)
  {
    if cs == [] then Trace([], Resolved)
    else if cs[0].outcome.Rejected? then Trace([cs[0].event], cs[0].outcome)
    else
      var rest := Perform(cs[1..]);
      assert forall c :: c in cs ==> c == cs[0] || c in cs[1..];
      Trace([cs[0].event] + rest.events, rest.outcome)
  }

  /** `await f?.(knex)`: the call to make when the callback is present, none when it is absent. */
  function Step(e: Event, a: Option<Action>): (cs: seq<Call>)
    ensures |cs| <= 1 && (cs == [] <==> a.None?)
  {
    if a.Some? then [Call(e, a.value.settles)] else []
  }

  /** One table of "up": its create, then its seed. */
  function InitCalls(entry: Entry): (cs: seq<Call>)
    ensures |cs| <= 2
    ensures cs == [] <==> entry.init.create.None? && entry.init.seed.None?
    ensures forall c :: c in cs ==> c.event.table == entry.table && !c.event.Drop?
  {
    Step(Create(entry.table), entry.init.create) + Step(Seed(entry.table), entry.init.seed)
  }

  /** The calls "up" would make if none rejected, table by table in key order. */
  function UpCalls(m: TableInitMap): (cs: seq<Call>)
    ensures |cs| <= 2 * |m|
  {
    if m == [] then [] else InitCalls(m[0]) + UpCalls(m[1..])
  }

  /** The calls "down" would make if none rejected: one drop per table, last key first. */
  function DownCalls(m: TableInitMap, drop: string -> Outcome): (cs: seq<Call>)
    ensures |cs| == |m|
  {
    DropCalls(Reverse(TableNames(m)), drop)
  }

  function DropCalls(tables: seq<string>, drop: string -> Outcome): (cs: seq<Call>)
    ensures |cs| == |tables|
  {
    seq(|tables|, i requires 0 <= i < |tables| => Call(Drop(tables[i]), drop(tables[i])))
  }

  /** The database the runner acts on, recording every action it starts. */
  class Knex {
    var log: seq<Event>
    /** How dropping each table settles. */
    const dropOutcome: string -> Outcome

    constructor (dropOutcome: string -> Outcome)
      ensures log == [] && this.dropOutcome == dropOutcome
    {
      log := [];
      this.dropOutcome := dropOutcome;
    }

    /** Awaiting a `create` or `seed` callback called with this knex. */
    method Await(e: Event, a: Action) returns (o: Outcome)
      modifies this
      ensures log == old(log) + [e] && o == a.settles
    {
      log := log + [e];
      o := a.settles;
    }

    /** `knex.schema.dropTableIfExists(table)`, awaited. */
    method DropTableIfExists(table: string) returns (o: Outcome)
      modifies this
      ensures log == old(log) + [Drop(table)] && o == dropOutcome(table)
    {
      log := log + [Drop(table)];
      o := dropOutcome(table);
    }
  }

  /** `migrateUpTableInitMap(knex, map)`. */
  method MigrateUp(knex: Knex, m: TableInitMap) returns (o: Outcome)
    modifies knex
    ensures knex.log == old(knex.log) + Perform(UpCalls(m)).events
    ensures o == Perform(UpCalls(m)).outcome
  {
    ghost var done: seq<Call> := [];
    for k := 0 to |m|
      invariant knex.log == old(knex.log) + Events(done)
      invariant AllResolved(done)
      invariant done + UpCalls(m[k..]) == UpCalls(m)
    {
      var table := m[k].table;
      var init := m[k].init;
      ghost var pending := UpCalls(m[k..]);
      UpCallsAt(m, k);
      assert pending == Step(Create(table), init.create) + (Step(Seed(table), init.seed) + UpCalls(m[k + 1..]));
      if init.create.Some? {
        o := knex.Await(Create(table), init.create.value);
        if o.Rejected? {
          PerformAfterResolved(done, pending);
          assert Perform(pending) == Trace([pending[0].event], o);
          LogAppend(old(knex.log), Events(done), pending[0].event);
          return;
        }
        Shift(done, pending);
        LogAppend(old(knex.log), Events(done), pending[0].event);
        done := done + [pending[0]];
        pending := pending[1..];
      }
      assert pending == Step(Seed(table), init.seed) + UpCalls(m[k + 1..]);
      if init.seed.Some? {
        o := knex.Await(Seed(table), init.seed.value);
        if o.Rejected? {
          PerformAfterResolved(done, pending);
          assert Perform(pending) == Trace([pending[0].event], o);
          LogAppend(old(knex.log), Events(done), pending[0].event);
          return;
        }
        Shift(done, pending);
        LogAppend(old(knex.log), Events(done), pending[0].event);
        done := done + [pending[0]];
        pending := pending[1..];
      }
      assert pending == UpCalls(m[k + 1..]);
    }
    assert m[|m|..] == [] && done == UpCalls(m);
    PerformAllResolved(done);
    o := Resolved;
  }

  /** `migrateDownTableInitMap(knex, map)`. */
  method MigrateDown(knex: Knex, m: TableInitMap) returns (o: Outcome)
    modifies knex
    ensures knex.log == old(knex.log) + Perform(DownCalls(m, knex.dropOutcome)).events
    ensures o == Perform(DownCalls(m, knex.dropOutcome)).outcome
  {
    var tables := Reverse(TableNames(m));
    ghost var all := DownCalls(m, knex.dropOutcome);
    for k := 0 to |tables|
      invariant knex.log == old(knex.log) + Events(all[..k])
      invariant AllResolved(all[..k])
    {
      o := knex.DropTableIfExists(tables[k]);
      if o.Rejected? {
        assert all == all[..k] + [all[k]] + all[k + 1..];
        PerformResolvedThenRejected(all[..k], all[k], all[k + 1..]);
        return;
      }
      assert all[..k + 1] == all[..k] + [all[k]];
    }
    assert all[..|tables|] == all;
    PerformAllResolved(all);
    o := Resolved;
  }

  /** Starting one more action after those already logged appends it to the log. */
  lemma LogAppend(log: seq<Event>, started: seq<Event>, x: Event)
    ensures (log + started) + [x] == log + (started + [x])
  {
  }

  /** Moving the next pending call to the calls done leaves the whole unchanged. */
  lemma Shift(done: seq<Call>, pending: seq<Call>)
    requires AllResolved(done) && pending != [] && pending[0].outcome == Resolved
    ensures AllResolved(done + [pending[0]])
    ensures (done + [pending[0]]) + pending[1..] == done + pending
    ensures Events(done + [pending[0]]) == Events(done) + [pending[0].event]
  {
    assert pending == [pending[0]] + pending[1..];
  }

  lemma EventsHead(cs: seq<Call>)
    requires cs != []
    ensures Events(cs) == [cs[0].event] + Events(cs[1..])
  {
    assert forall i :: 0 <= i < |cs| ==> Events(cs)[i] == ([cs[0].event] + Events(cs[1..]))[i];
  }

  /** Calls that all resolved are followed by whatever the rest does. */
  lemma {:induction false} PerformAfterResolved(done: seq<Call>, rest: seq<Call>)
    requires AllResolved(done)
    ensures Perform(done + rest) == Trace(Events(done) + Perform(rest).events, Perform(rest).outcome)
    decreases |done|
  {
    if done != [] {
      assert done[0] in done;
      assert (done + rest)[1..] == done[1..] + rest;
      assert AllResolved(done[1..]) by {
        forall x | x in done[1..] ensures x.outcome == Resolved {
          assert x in done;
        }
      }
      PerformAfterResolved(done[1..], rest);
      var head, tail := [done[0].event], Events(done[1..]);
      EventsHead(done);
      assert Perform(done + rest).events == head + (tail + Perform(rest).events);
      assert head + (tail + Perform(rest).events) == (head + tail) + Perform(rest).events;
    } else {
      assert done + rest == rest;
    }
  }

  /** The actions started are those of a prefix of the calls. */
  lemma {:induction false} PerformPrefix(cs: seq<Call>)
    ensures Perform(cs).events == Events(cs[..|Perform(cs).events|])
  {
    if cs != [] && cs[0].outcome.Resolved? {
      var n := |Perform(cs[1..]).events|;
      PerformPrefix(cs[1..]);
      assert cs[..n + 1] == [cs[0]] + cs[1..][..n];
      assert Events([cs[0]] + cs[1..][..n]) == Events([cs[0]]) + Events(cs[1..][..n]);
    }
  }

  /** Calls that all resolve are all started, and the run resolves. */
  lemma {:induction false} PerformAllResolved(cs: seq<Call>)
    requires AllResolved(cs)
    ensures Perform(cs) == Trace(Events(cs), Resolved)
  {
    if cs != [] {
      assert cs[0] in cs;
      assert AllResolved(cs[1..]) by {
        forall x | x in cs[1..] ensures x.outcome == Resolved {
          assert x in cs;
        }
      }
      PerformAllResolved(cs[1..]);
      assert Events(cs) == [cs[0].event] + Events(cs[1..]);
    }
  }

  /**
   * The calls before a rejected one are all started, then the rejected
   * one, and nothing after it; the run settles as the rejected call did.
   */
  lemma {:induction false} PerformResolvedThenRejected(done: seq<Call>, c: Call, rest: seq<Call>)
    requires AllResolved(done) && c.outcome.Rejected?
    ensures Perform(done + [c] + rest) == Trace(Events(done) + [c.event], c.outcome)
    decreases |done|
  {
    if done == [] {
      assert (done + [c] + rest)[0] == c;
    } else {
      assert (done + [c] + rest)[1..] == done[1..] + [c] + rest;
      assert done[0] in done;
      assert AllResolved(done[1..]) by {
        forall x | x in done[1..] ensures x.outcome == Resolved {
          assert x in done;
        }
      }
      PerformResolvedThenRejected(done[1..], c, rest);
      assert Events(done) == [done[0].event] + Events(done[1..]);
    }
  }

  /**
   * The run stops at the first rejected call j: calls 0..j are started,
   * and the run settles as call j did.
   */
  lemma PerformFirstRejection(cs: seq<Call>, j: nat)
    requires j < |cs| && cs[j].outcome.Rejected?
    requires forall i :: 0 <= i < j ==> cs[i].outcome == Resolved
    ensures Perform(cs) == Trace(Events(cs[..j + 1]), cs[j].outcome)
  {
    assert cs == cs[..j] + [cs[j]] + cs[j + 1..];
    assert AllResolved(cs[..j]) by {
      forall c | c in cs[..j] ensures c.outcome == Resolved {
        var i :| 0 <= i < j && cs[..j][i] == c;
      }
    }
    PerformResolvedThenRejected(cs[..j], cs[j], cs[j + 1..]);
    assert cs[..j + 1] == cs[..j] + [cs[j]];
  }

  /** Tables run in key order: the calls for a map are those of its first part, then those of the rest. */
  lemma {:induction false} UpCallsAppend(m1: TableInitMap, m2: TableInitMap)
    ensures UpCalls(m1 + m2) == UpCalls(m1) + UpCalls(m2)
  {
    if m1 != [] {
      assert (m1 + m2)[0] == m1[0] && (m1 + m2)[1..] == m1[1..] + m2;
      var head := InitCalls(m1[0]);
      assert UpCalls(m1 + m2) == head + UpCalls(m1[1..] + m2);
      assert UpCalls(m1) == head + UpCalls(m1[1..]);
      UpCallsAppend(m1[1..], m2);
    } else {
      assert m1 + m2 == m2;
    }
  }

  /** The calls from table k on: table k's own, then those of the tables after it. */
  lemma UpCallsAt(m: TableInitMap, k: nat)
    requires k < |m|
    ensures UpCalls(m[k..]) == Step(Create(m[k].table), m[k].init.create)
      + (Step(Seed(m[k].table), m[k].init.seed) + UpCalls(m[k + 1..]))
  {
    assert m[k..][0] == m[k] && m[k..][1..] == m[k + 1..];
  }

  /** Table k's calls sit between those of the tables before it and those after it. */
  lemma UpSplit(m: TableInitMap, k: nat)
    requires k < |m|
    ensures UpCalls(m) == UpCalls(m[..k]) + (InitCalls(m[k]) + UpCalls(m[k + 1..]))
  {
    UpCallsSplit(m, k);
    assert m[k..][0] == m[k] && m[k..][1..] == m[k + 1..];
  }

  /** "Up" starts creates and seeds only, each on a table of the map. */
  lemma {:induction false} UpOnlyInits(m: TableInitMap)
    ensures forall c :: c in UpCalls(m) ==> !c.event.Drop? && c.event.table in TableNames(m)
  {
    if m != [] {
      UpOnlyInits(m[1..]);
      var names := TableNames(m);
      assert names == [m[0].table] + TableNames(m[1..]);
      assert UpCalls(m) == InitCalls(m[0]) + UpCalls(m[1..]);
    }
  }

  /** "Up" on a table map that starts with entry e: e's calls, then those of the rest. */
  lemma UpCallsCons(e: Entry, rest: TableInitMap)
    ensures UpCalls([e] + rest) == InitCalls(e) + UpCalls(rest)
  {
    assert ([e] + rest)[1..] == rest;
  }

  /** A table whose create and seed both resolve makes exactly those two calls. */
  lemma ResolvedInitCalls(e: Entry)
    requires e.init.create.Some? && e.init.create.value.settles == Resolved
    requires e.init.seed.Some? && e.init.seed.value.settles == Resolved
    ensures InitCalls(e) == [Call(Create(e.table), Resolved), Call(Seed(e.table), Resolved)]
  {
  }

  /** Three tables whose creates and seeds all resolve: each table's create, then its seed, in key order. */
  lemma UpCallsOfThree(ea: Entry, eb: Entry, ec: Entry)
    requires forall e :: e in [ea, eb, ec] ==>
      && e.init.create.Some? && e.init.create.value.settles == Resolved
      && e.init.seed.Some? && e.init.seed.value.settles == Resolved
    ensures UpCalls([ea, eb, ec])
      == [Call(Create(ea.table), Resolved), Call(Seed(ea.table), Resolved),
          Call(Create(eb.table), Resolved), Call(Seed(eb.table), Resolved),
          Call(Create(ec.table), Resolved), Call(Seed(ec.table), Resolved)]
  {
    ResolvedInitCalls(ea);
    ResolvedInitCalls(eb);
    ResolvedInitCalls(ec);
    assert UpCalls([ec]) == InitCalls(ec) by {
      UpCallsCons(ec, []);
      assert [ec] + [] == [ec];
    }
    assert UpCalls([eb, ec]) == InitCalls(eb) + InitCalls(ec) by {
      UpCallsCons(eb, [ec]);
      assert [eb] + [ec] == [eb, ec];
    }
    UpCallsCons(ea, [eb, ec]);
    assert [ea] + [eb, ec] == [ea, eb, ec];
  }

  /** Three tables, each with a create and a seed that resolve, run in key order. */
  lemma UpExample(ta: string, tb: string, tc: string, a: Action, b: Action)
    requires a.settles == Resolved && b.settles == Resolved
    ensures var init := TableInit(Some(a), Some(b));
      var m := [Entry(ta, init), Entry(tb, init), Entry(tc, init)];
      Perform(UpCalls(m))
        == Trace([Create(ta), Seed(ta), Create(tb), Seed(tb), Create(tc), Seed(tc)], Resolved)
  {
    var init := TableInit(Some(a), Some(b));
    UpCallsOfThree(Entry(ta, init), Entry(tb, init), Entry(tc, init));
    var cs := [Call(Create(ta), Resolved), Call(Seed(ta), Resolved),
               Call(Create(tb), Resolved), Call(Seed(tb), Resolved),
               Call(Create(tc), Resolved), Call(Seed(tc), Resolved)];
    assert AllResolved(cs);
    PerformAllResolved(cs);
  }

  /** "Up" on a table map is "up" on its first i tables, then on the rest. */
  lemma UpCallsSplit(m: TableInitMap, i: nat)
    requires i <= |m|
    ensures UpCalls(m) == UpCalls(m[..i]) + UpCalls(m[i..])
  {
    assert m == m[..i] + m[i..];
    UpCallsAppend(m[..i], m[i..]);
  }

  /** A first call that rejects ends the run with its own event. */
  lemma PerformRejectedFirst(cs: seq<Call>)
    requires cs != [] && cs[0].outcome.Rejected?
    ensures Perform(cs) == Trace([cs[0].event], cs[0].outcome)
  {
  }

  /**
   * A rejected create of table i: the tables before it were created and
   * seeded (when they have those callbacks), the create of table i was
   * started, and its seed and every later table never run.
   */
  lemma UpCreateRejected(m: TableInitMap, i: nat, reason: string)
    requires i < |m| && m[i].init.create == Some(Action(Rejected(reason)))
    requires AllResolved(UpCalls(m[..i]))
    ensures Perform(UpCalls(m))
      == Trace(Events(UpCalls(m[..i])) + [Create(m[i].table)], Rejected(reason))
  {
    UpCallsSplit(m, i);
    UpCallsAt(m, i);
    PerformRejectedFirst(UpCalls(m[i..]));
    PerformAfterResolved(UpCalls(m[..i]), UpCalls(m[i..]));
  }

  /** "Down" starts nothing but drops. */
  lemma DownOnlyDrops(m: TableInitMap, drop: string -> Outcome)
    ensures forall e :: e in Perform(DownCalls(m, drop)).events ==> e.Drop?
  {
    var cs := DownCalls(m, drop);
    var r := Perform(cs);
    PerformPrefix(cs);
    forall e | e in r.events ensures e.Drop? {
      var i :| 0 <= i < |r.events| && r.events[i] == e;
      assert e == cs[i].event;
    }
  }

  /** When every drop resolves, each table is dropped once, last key first. */
  lemma DownDropsInReverse(m: TableInitMap, drop: string -> Outcome)
    requires forall e :: e in m ==> drop(e.table) == Resolved
    ensures var r := Perform(DownCalls(m, drop));
      && r.outcome == Resolved && |r.events| == |m|
      && forall i :: 0 <= i < |m| ==> r.events[i] == Drop(m[|m| - 1 - i].table)
  {
    var cs := DownCalls(m, drop);
    var ts := Reverse(TableNames(m));
    assert AllResolved(cs) by {
      forall c | c in cs ensures c.outcome == Resolved {
        var i :| 0 <= i < |cs| && cs[i] == c;
        assert m[|m| - 1 - i] in m;
      }
    }
    PerformAllResolved(cs);
  }
}
