/** The schema migrator (server/cmd/am-migrate/main.go). `schema_migrations` is the set
    of recorded versions; any statement sent to the database may fail, as an oracle
    decides. */
module Migrations {
  import opened Common

  /** A migration and how many statements its scripts split into. */
  datatype Migration = Migration(version: int, up: nat, down: nat)

  datatype Exec = Done | DuplicateColumn | Error

  /** The result of the n-th statement sent to the database. */
  type Oracle = nat -> Exec

  /** What sort.Slice leaves: positive versions, each once, ascending. */
  ghost predicate Sorted(ms: seq<Migration>) {
    && (forall i :: 0 <= i < |ms| ==> ms[i].version > 0)
    && (forall i, j :: 0 <= i < j < |ms| ==> ms[i].version < ms[j].version)
  }

  /** The versions of the first n migrations: a prefix of the sorted list. */
  ghost function Take(ms: seq<Migration>, n: nat): set<int>
    requires n <= |ms|
  {
    if n == 0 then {} else Take(ms, n - 1) + {ms[n - 1].version}
  }

  /** COALESCE(MAX(version), 0) of such a prefix. */
  function Current(ms: seq<Migration>, n: nat): int
    requires n <= |ms|
  {
    if n == 0 then 0 else ms[n - 1].version
  }

  /** How many migrations have a version up to `t`. */
  function Level(ms: seq<Migration>, t: int): nat
    ensures Level(ms, t) <= |ms|
  {
    if ms == [] then 0 else if ms[|ms| - 1].version <= t then |ms| else Level(ms[..|ms| - 1], t)
  }

  lemma {:induction false} TakeHas(ms: seq<Migration>, n: nat, v: int)
    requires n <= |ms|
    ensures v in Take(ms, n) <==> exists i :: 0 <= i < n && ms[i].version == v
  {
    if n > 0 { TakeHas(ms, n - 1, v); }
  }

  lemma TakeIndex(ms: seq<Migration>, n: nat, i: nat)
    requires Sorted(ms) && n <= |ms| && i < |ms|
    ensures ms[i].version in Take(ms, n) <==> i < n
  {
    TakeHas(ms, n, ms[i].version);
  }

  lemma {:induction false} LevelIs(ms: seq<Migration>, t: int, i: nat)
    requires Sorted(ms) && i < |ms|
    ensures ms[i].version <= t <==> i < Level(ms, t)
    decreases |ms|
  {
    if ms[|ms| - 1].version > t && i < |ms| - 1 {
      LevelIs(ms[..|ms| - 1], t, i);
    }
  }

  /** A prefix holds exactly the versions up to its current one, so the levels that a
      successful up or down reaches are the versions up to max(current, t) and
      min(current, t). */
  lemma LevelsByVersion(ms: seq<Migration>, n: nat, t: int, v: int)
    requires Sorted(ms) && n <= |ms| && t >= 0
    ensures v in Take(ms, Max(n, Level(ms, t))) <==>
            v in Take(ms, |ms|) && v <= Max(Current(ms, n), t)
    ensures v in Take(ms, Min(n, Level(ms, t))) <==>
            v in Take(ms, |ms|) && v <= Min(Current(ms, n), t)
  {
    TakeHas(ms, Max(n, Level(ms, t)), v);
    TakeHas(ms, Min(n, Level(ms, t)), v);
    TakeHas(ms, |ms|, v);
    if v in Take(ms, |ms|) {
      var i: nat :| i < |ms| && ms[i].version == v;
      LevelIs(ms, t, i);
    }
  }

  class Migrator {
    const migrations: seq<Migration>
    var recorded: set<int>
    /** Statements sent so far, the oracle's index. */
    var sent: nat
    /** How many migrations are recorded. */
    ghost var level: nat

    ghost predicate Valid()
      reads this
    {
      && Sorted(migrations) && migrations != []
      && level <= |migrations| && recorded == Take(migrations, level)
    }

    constructor (migrations: seq<Migration>)
      requires Sorted(migrations) && migrations != []
      ensures Valid() && this.migrations == migrations && level == 0 && recorded == {}
    {
      this.migrations := migrations;
      recorded, sent, level := {}, 0, 0;
    }

    method Execute(oracle: Oracle) returns (r: Exec)
      modifies this`sent
      ensures r == oracle(old(sent)) && sent == old(sent) + 1
    {
      r := oracle(sent);
      sent := sent + 1;
    }

    method GetCurrentVersion() returns (c: int)
      requires Valid()
      ensures c == Current(migrations, level)
    {
      c := 0;
      for i := 0 to |migrations|
        invariant c == Current(migrations, Min(i, level))
      {
        TakeIndex(migrations, level, i);
        if migrations[i].version in recorded {
          c := migrations[i].version;
        }
      }
    }

    /** A script: an error ends an up script, unless it is about a column that already
        exists; a down script only logs its errors. */
    method RunStatements(n: nat, fatal: bool, oracle: Oracle) returns (ok: bool)
      modifies this`sent
      ensures old(sent) <= sent && (ok ==> sent == old(sent) + n)
      ensures ok <==> !fatal || forall k :: old(sent) <= k < old(sent) + n ==> oracle(k) != Error
    {
      for i := 0 to n
        invariant sent == old(sent) + i
        invariant fatal ==> forall k :: old(sent) <= k < sent ==> oracle(k) != Error
      {
        var r := Execute(oracle);
        if r.Error? && fatal {
          assert oracle(old(sent) + i) == Error;
          return false;
        }
      }
      return true;
    }

    /** The next migration: its up script, then the insert of its record. */
    method ApplyNext(i: nat, oracle: Oracle) returns (ok: bool)
      requires Valid() && level == i < |migrations|
      modifies this`recorded, this`level, this`sent
      ensures Valid() && level == (if ok then i + 1 else i) && sent >= old(sent)
      ensures (forall k :: k >= old(sent) ==> oracle(k) == Done) ==> ok
    {
      var ran := RunStatements(migrations[i].up, true, oracle);
      if !ran {
        return false;
      }
      var insert := Execute(oracle);
      if insert != Done {
        return false;
      }
      recorded, level := recorded + {migrations[i].version}, i + 1;
      return true;
    }

    /** Whatever fails, the recorded versions stay a prefix and only grow towards the
        target; if nothing fails they reach it. A target of -1 means the latest; one
        beyond the latest is refused and changes nothing. */
    method MigrateUp(target: int, oracle: Oracle) returns (ok: bool)
      requires Valid()
      modifies this
      ensures Valid()
      ensures var t := if target < 0 then Current(migrations, |migrations|) else target;
              && old(level) <= level <= Max(old(level), Level(migrations, t))
              && (ok ==> level == Max(old(level), Level(migrations, t)) && t <= Current(migrations, |migrations|))
              && (t > Current(migrations, |migrations|) ==> !ok && level == old(level))
      ensures (forall k :: k >= old(sent) ==> oracle(k) == Done) && target <= Current(migrations, |migrations|) ==> ok
    {
      var ensured := Execute(oracle);
      if ensured != Done {
        return false;
      }
      var queried := Execute(oracle);
      if queried != Done {
        return false;
      }
      var current := GetCurrentVersion();
      var maxVersion := migrations[|migrations| - 1].version;
      var t := if target < 0 then maxVersion else target;
      if t > maxVersion {
        return false;
      }
      for i := 0 to |migrations|
        invariant Valid() && old(sent) <= sent
        invariant level == Max(old(level), i) && i <= Max(old(level), Level(migrations, t))
      {
        var m := migrations[i];
        LevelIs(migrations, t, i);
        if m.version <= current {
          continue;
        }
        if m.version > t {
          return true;
        }
        var done := ApplyNext(i, oracle);
        if !done {
          return false;
        }
      }
      return true;
    }

    /** The newest recorded migration: its down script, then the delete of its record. */
    method RollBack(i: nat, oracle: Oracle) returns (ok: bool)
      requires Valid() && level == i + 1
      modifies this`recorded, this`level, this`sent
      ensures Valid() && level == (if ok then i else i + 1) && sent >= old(sent)
      ensures (forall k :: k >= old(sent) ==> oracle(k) == Done) ==> ok
    {
      var _ := RunStatements(migrations[i].down, false, oracle);
      var delete := Execute(oracle);
      if delete != Done {
        return false;
      }
      TakeIndex(migrations, i, i);
      recorded, level := recorded - {migrations[i].version}, i;
      return true;
    }

    /** Whatever fails, the recorded versions stay a prefix and only shrink towards the
        target (-1 means none); if no delete fails they reach it. */
    method MigrateDown(target: int, oracle: Oracle) returns (ok: bool)
      requires Valid()
      modifies this
      ensures Valid()
      ensures var t := if target < 0 then 0 else target;
              && Min(old(level), Level(migrations, t)) <= level <= old(level)
              && (ok ==> level == Min(old(level), Level(migrations, t)))
      ensures (forall k :: k >= old(sent) ==> oracle(k) == Done) ==> ok
    {
      var ensured := Execute(oracle);
      if ensured != Done {
        return false;
      }
      var queried := Execute(oracle);
      if queried != Done {
        return false;
      }
      var current := GetCurrentVersion();
      var t := if target < 0 then 0 else target;
      if t >= current {
        if level > 0 { LevelIs(migrations, t, level - 1); }
        return true;
      }
      for i := |migrations| downto 0
        invariant Valid() && old(sent) <= sent
        invariant level == Min(old(level), Max(i, Level(migrations, t)))
      {
        var m := migrations[i];
        LevelIs(migrations, t, i);
        if m.version <= t || m.version > current {
          continue;
        }
        var undone := RollBack(i, oracle);
        if !undone {
          return false;
        }
      }
      return true;
    }

    /** Any run of the tool: commands in any order with any targets, failing anywhere. */
    method RunCommands(commands: seq<Command>, oracle: Oracle)
      requires Valid()
      modifies this
      ensures Valid()
    {
      for i := 0 to |commands|
        invariant Valid()
      {
        match commands[i]
        case Up(t) => var _ := MigrateUp(t, oracle);
        case Down(t) => var _ := MigrateDown(t, oracle);
      }
    }
  }

  datatype Command = Up(target: int) | Down(target: int)
}
