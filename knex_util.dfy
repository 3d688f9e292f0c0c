/**
 * The dialect classifier and its module-level cache
 * (`KnexUtil` and `_knexUtil` in src/util/knex.util.ts).
 */
module KnexUtil {
  import opened Wrappers

  /** `knex.client.config`, reduced to the one member read here. */
  datatype ClientConfig = ClientConfig(client: Option<string>)

  /** `knex.client`. */
  datatype Client = Client(config: Option<ClientConfig>)

  /** A knex instance, as far as the classifier looks into it. */
  datatype Knex = Knex(client: Option<Client>)

  /** `knex.client?.config?.client || ''`: a missing link anywhere gives the empty name. */
  function ClientName(knex: Knex): (r: string)
    ensures knex.client.Some? && knex.client.value.config.Some? && knex.client.value.config.value.client.Some?
      ==> r == knex.client.value.config.value.client.value
    ensures r != "" ==>
      (knex.client.Some? && knex.client.value.config.Some? && knex.client.value.config.value.client == Some(r))
  {
    match knex.client
    case None => ""
    case Some(c) =>
      match c.config
      case None => ""
      case Some(cfg) =>
        match cfg.client
        case None => ""
        case Some(name) => name
  }

  /** `s.includes(sub)`. */
  function Contains(s: string, sub: string): (r: bool)
    ensures r ==> |sub| <= |s|
    ensures sub == [] ==> r
    decreases |s|
  {
    if |s| < |sub| then false
    else s[..|sub|] == sub || Contains(s[1..], sub)
  }

  /** sub occurs in s starting at position i. */
  predicate OccursAt(s: string, sub: string, i: int)
  {
    0 <= i <= |s| - |sub| && s[i..i + |sub|] == sub
  }

  /** An occurrence past the first position is an occurrence in the tail, one position earlier. */
  lemma OccursShift(s: string, sub: string, i: int)
    requires |s| > 0 && 0 < i
    ensures OccursAt(s, sub, i) <==> OccursAt(s[1..], sub, i - 1)
  {
    if i <= |s| - |sub| {
      assert s[1..][i - 1..i - 1 + |sub|] == s[i..i + |sub|];
    }
  }

  /** Contains finds sub exactly when sub occurs at some position of s. */
  lemma {:induction false} ContainsIff(s: string, sub: string)
    ensures Contains(s, sub) <==> exists i :: OccursAt(s, sub, i)
    decreases |s|
  {
    if |s| < |sub| {
      forall i ensures !OccursAt(s, sub, i) { }
    } else if s[..|sub|] == sub {
      assert OccursAt(s, sub, 0);
    } else {
      assert |s| > 0;
      ContainsIff(s[1..], sub);
      if Contains(s[1..], sub) {
        var j :| OccursAt(s[1..], sub, j);
        OccursShift(s, sub, j + 1);
      } else {
        forall i ensures !OccursAt(s, sub, i) {
          if i > 0 {
            OccursShift(s, sub, i);
          }
        }
      }
    }
  }

  /** Every character of an included string occurs in the string that includes it. */
  lemma ContainsChars(s: string, sub: string, ch: char)
    requires Contains(s, sub) && ch in sub
    ensures ch in s
  {
    ContainsIff(s, sub);
    var i :| OccursAt(s, sub, i);
    var j :| 0 <= j < |sub| && sub[j] == ch;
    assert s[i + j] == s[i..i + |sub|][j];
  }

  /** A name without the letter i does not contain `sqlite`. */
  lemma LacksI(name: string)
    requires 'i' !in name
    ensures !Contains(name, "sqlite")
  {
    if Contains(name, "sqlite") {
      assert "sqlite"[3] == 'i';
      ContainsChars(name, "sqlite", 'i');
    }
  }

  /** `KnexUtil`: the client name of a knex instance, read once at construction. */
  class KnexUtil {
    const knex: Knex
    const client: string

    constructor (knex: Knex)
      ensures this.knex == knex && client == ClientName(knex)
    {
      this.knex := knex;
      client := ClientName(knex);
    }

    /** `isSqliteClient()`: the name contains `sqlite` somewhere. */
    predicate IsSqliteClient(): (r: bool)
      ensures r <==> exists i :: OccursAt(client, "sqlite", i)
    {
      ContainsIff(client, "sqlite");
      Contains(client, "sqlite")
    }

    /** `isMysqlClient()`: a MySQL name is never taken for SQLite. */
    predicate IsMysqlClient(): (r: bool)
      ensures r ==> !IsSqliteClient()
    {
      if client in ["mysql", "mysql2"] then
        LacksI(client);
        true
      else false
    }

    /** `isPostgresClient()`: a Postgres name is neither MySQL nor SQLite. */
    predicate IsPostgresClient(): (r: bool)
      ensures r ==> !IsSqliteClient() && !IsMysqlClient()
    {
      if client in ["postgres", "postgresql", "pg"] then
        LacksI(client);
        true
      else false
    }
  }

  /** The three dialect tests, stated on the client name alone. */
  lemma Dialects(u: KnexUtil)
    ensures u.IsMysqlClient() <==> u.client == "mysql" || u.client == "mysql2"
    ensures u.IsPostgresClient() <==> u.client == "postgres" || u.client == "postgresql" || u.client == "pg"
  {
  }

  /** A knex instance without a client name is no known dialect. */
  lemma NoClientNoDialect(u: KnexUtil)
    requires u.client == ClientName(u.knex)
    requires u.knex.client.None? || u.knex.client.value.config.None?
      || u.knex.client.value.config.value.client.None?
    ensures u.client == ""
    ensures !u.IsMysqlClient() && !u.IsPostgresClient() && !u.IsSqliteClient()
  {
  }

  /** The module-level `knexUtilInstance` behind `_knexUtil`. */
  class KnexUtilCache {
    var instance: KnexUtil?

    constructor ()
      ensures instance == null
    {
      instance := null;
    }

    /** `_knexUtil(knex)`: the first call builds the instance, later calls return it and ignore knex. */
    method Get(knex: Knex) returns (u: KnexUtil)
      modifies this
      ensures old(instance) == null ==> fresh(u) && u.knex == knex && u.client == ClientName(knex)
      ensures old(instance) != null ==> u == old(instance)
      ensures instance == u
    {
      if instance == null {
        instance := new KnexUtil(knex);
      }
      u := instance;
    }
  }

  /** Two callers with different knex instances share the first caller's dialect. */
  method FirstCallerFixesDialect(cache: KnexUtilCache, first: Knex, second: Knex) returns (u1: KnexUtil, u2: KnexUtil)
    requires cache.instance == null
    modifies cache
    ensures u1 == u2 && u2.client == ClientName(first)
  {
    u1 := cache.Get(first);
    u2 := cache.Get(second);
  }
}
