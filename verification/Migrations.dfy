/** The migration runner (migration_runner.py): discovery, and applying what is pending, over
    any number of startups that may fail anywhere. */
module Migrations {
  import opened Wrappers
  import opened Sequences
  import opened UnitOfWork

  datatype File = File(name: string, source: string)

  datatype Migration = Migration(version: nat, name: string, source: string)

  datatype Error = BadName(filename: string) | Gap(expected: nat, found: nat) | BookkeepingFailed | ApplyFailed(version: nat)

  // ---- Names -------------------------------------------------------------------------------

  /** The decimal digits `\d` matches and `int` reads: those of the Unicode version in use, each
      with its value. */
  type Digits = char -> Option<nat>

  predicate Word(c: char) {
    '0' <= c <= '9' || 'a' <= c <= 'z' || 'A' <= c <= 'Z' || c == '_'
  }

  const SUFFIX := ".sql"

  predicate IsSql(name: string) {
    |name| >= 4 && name[|name| - 4..] == SUFFIX
  }

  /** NNN_description.sql */
  predicate WellNamed(digit: Digits, name: string) {
    && IsSql(name) && |name| >= 9
    && digit(name[0]).Some? && digit(name[1]).Some? && digit(name[2]).Some? && name[3] == '_'
    && forall i :: 4 <= i < |name| - 4 ==> Word(name[i])
  }

  function VersionOf(digit: Digits, name: string): nat
    requires WellNamed(digit, name)
  {
    digit(name[0]).value * 100 + digit(name[1]).value * 10 + digit(name[2]).value
  }

  function Parse(digit: Digits, f: File): Migration
    requires WellNamed(digit, f.name)
  {
    Migration(VersionOf(digit, f.name), f.name[..|f.name| - 4], f.source)
  }

  /** A name taken apart as NNN_word.sql. */
  ghost predicate Spells(digit: Digits, name: string, number: string, word: string) {
    && |number| == 3 && word != "" && name == number + "_" + word + ".sql"
    && (forall i :: 0 <= i < 3 ==> digit(number[i]).Some?)
    && (forall i :: 0 <= i < |word| ==>
          'a' <= word[i] <= 'z' || 'A' <= word[i] <= 'Z' || '0' <= word[i] <= '9' || word[i] == '_')
  }

  /** Three digits, an underscore, a word of at least one character, the suffix. */
  lemma WellNamedExact(digit: Digits, name: string)
    ensures WellNamed(digit, name) <==> exists number, word :: Spells(digit, name, number, word)
  {
    if WellNamed(digit, name) {
      var number, word := name[..3], name[4..|name| - 4];
      assert name == number + "_" + word + ".sql";
      assert Spells(digit, name, number, word);
    }
    if number, word :| Spells(digit, name, number, word) {
      SpelledPieces(digit, name, number, word);
    }
  }

  lemma SpelledPieces(digit: Digits, name: string, number: string, word: string)
    requires Spells(digit, name, number, word)
    ensures WellNamed(digit, name)
  {
    assert name[..3] == number && name[3] == '_' && name[4..|name| - 4] == word && name[|name| - 4..] == ".sql";
    forall i | 4 <= i < |name| - 4
      ensures Word(name[i])
    {
      assert name[i] == word[i - 4];
    }
    assert name[0] == number[0] && name[1] == number[1] && name[2] == number[2];
  }

  function Decimal(digit: Digits, s: string): nat
    requires forall i :: 0 <= i < |s| ==> digit(s[i]).Some?
  {
    if s == "" then 0 else 10 * Decimal(digit, s[..|s| - 1]) + digit(s[|s| - 1]).value
  }

  /** A migration is its file: the number in front, the name before the suffix, the text. */
  lemma ParseExact(digit: Digits, f: File)
    requires WellNamed(digit, f.name)
    ensures var m := Parse(digit, f);
            m.version == Decimal(digit, f.name[..3]) && m.name + ".sql" == f.name && m.source == f.source
  {
    var number := f.name[..3];
    assert number[..2][..1] == number[..1] && number[..1][..0] == "";
    assert Decimal(digit, number[..1]) == digit(f.name[0]).value;
    assert Decimal(digit, number[..2]) == 10 * Decimal(digit, number[..1]) + digit(f.name[1]).value;
  }

  // ---- Discovery -----------------------------------------------------------------------------

  function ByVersion(): (Migration, Migration) -> bool {
    (a: Migration, b: Migration) => a.version < b.version
  }

  predicate Versioned(ms: seq<Migration>) {
    forall i :: 0 <= i < |ms| ==> ms[i].version == i + 1
  }

  predicate AllNamed(digit: Digits, files: seq<File>) {
    forall i :: 0 <= i < |files| && IsSql(files[i].name) ==> WellNamed(digit, files[i].name)
  }

  /** The migrations in the directory's .sql files, in listing order. */
  function ParseAll(digit: Digits, files: seq<File>): seq<Migration>
    requires AllNamed(digit, files)
  {
    if files == [] then []
    else
      var n := |files| - 1;
      ParseAll(digit, files[..n]) + if IsSql(files[n].name) then [Parse(digit, files[n])] else []
  }

  /** Version `v` has a file. */
  ghost predicate Has(ms: seq<Migration>, v: nat) {
    exists m :: m in ms && m.version == v
  }

  /** The versions are 1..n, each once: nothing missing among n files. */
  ghost predicate Gapless(ms: seq<Migration>) {
    forall v: nat :: 1 <= v <= |ms| ==> Has(ms, v)
  }

  lemma OrderedAt(ms: seq<Migration>, i: nat, j: nat)
    requires Ordered(ms, ByVersion()) && i < |ms| && j < |ms|
    ensures i < j ==> ms[i].version <= ms[j].version
  {
    assert i < j ==> !ByVersion()(ms[j], ms[i]);
  }

  lemma OrderedCons(m: Migration, s: seq<Migration>)
    requires Ordered(s, ByVersion()) && forall x :: x in s ==> m.version <= x.version
    ensures Ordered([m] + s, ByVersion())
  {
    forall i, j | 0 <= i < j < |[m] + s|
      ensures !ByVersion()(([m] + s)[j], ([m] + s)[i])
    {
      assert ([m] + s)[j] == s[j - 1] && s[j - 1] in s;
      if i > 0 {
        OrderedAt(s, i - 1, j - 1);
      }
    }
  }

  lemma {:induction false} InsertByVersion(m: Migration, s: seq<Migration>)
    requires Ordered(s, ByVersion())
    ensures Ordered(Insert(m, s, ByVersion()), ByVersion())
  {
    forall x | s != [] && x in s
      ensures s[0].version <= x.version
    {
      var k :| 0 <= k < |s| && s[k] == x;
      OrderedAt(s, 0, k);
    }
    if s != [] && s[0].version < m.version {
      InsertByVersion(m, s[1..]);
      InsertMembers(m, s[1..], ByVersion());
      SameMembers(Insert(m, s[1..], ByVersion()), [m] + s[1..]);
      OrderedCons(s[0], Insert(m, s[1..], ByVersion()));
    } else {
      OrderedCons(m, s);
    }
  }

  lemma {:induction false} SortByVersion(s: seq<Migration>)
    ensures Ordered(Sort(s, ByVersion()), ByVersion())
  {
    if s != [] {
      SortByVersion(s[1..]);
      InsertByVersion(s[0], Sort(s[1..], ByVersion()));
    }
  }

  /** If the first i + 1 versions are at most i, each later version comes too late. */
  lemma {:induction false} LateVersions(ms: seq<Migration>, i: nat, v: nat)
    requires Ordered(ms, ByVersion()) && Gapless(ms) && i < v <= |ms| && ms[i].version <= i
    ensures exists p :: v <= p < |ms| && ms[p].version == v
    decreases v
  {
    assert Has(ms, v);
    var m :| m in ms && m.version == v;
    var q :| 0 <= q < |ms| && ms[q] == m;
    if v == i + 1 {
      OrderedAt(ms, q, i);
    } else {
      LateVersions(ms, i, v - 1);
      var p :| v - 1 <= p < |ms| && ms[p].version == v - 1;
      OrderedAt(ms, q, p);
    }
  }

  /** A sorted list of n versions holding each of 1..n is 1..n. */
  lemma {:induction false} SortedGapless(ms: seq<Migration>, i: nat)
    requires Ordered(ms, ByVersion()) && Gapless(ms) && i < |ms|
    ensures ms[i].version == i + 1
    decreases i
  {
    forall k | 0 <= k < i
      ensures ms[k].version == k + 1
    {
      SortedGapless(ms, k);
    }
    if ms[i].version <= i {
      LateVersions(ms, i, |ms|);
      assert false;
    }
    assert Has(ms, i + 1);
    var m :| m in ms && m.version == i + 1;
    var p :| 0 <= p < |ms| && ms[p] == m;
    OrderedAt(ms, i, p);
  }

  /** The directory's migrations in version order. */
  function Listed(digit: Digits, files: seq<File>): seq<Migration>
    requires AllNamed(digit, files)
  {
    Sort(ParseAll(digit, files), ByVersion())
  }

  /** The directory passes discovery. */
  ghost predicate Accepted(digit: Digits, files: seq<File>) {
    AllNamed(digit, files) && Gapless(ParseAll(digit, files))
  }

  lemma {:induction false} SameVersions(a: seq<Migration>, b: seq<Migration>)
    requires multiset(a) == multiset(b)
    ensures Gapless(a) <==> Gapless(b)
  {
    SameMembers(a, b);
    forall v: nat
      ensures Has(a, v) <==> Has(b, v)
    {
    }
  }

  /** A misnamed file, the first of them; else the first place in version order that holds another
      version than its own. */
  ghost predicate RefusedAs(digit: Digits, files: seq<File>, e: Error) {
    match e
    case BadName(filename) =>
      exists i :: 0 <= i < |files| && files[i].name == filename && IsSql(filename) && !WellNamed(digit, filename)
        && AllNamed(digit, files[..i])
    case Gap(expected, found) =>
      && AllNamed(digit, files) && found != expected
      && var ms := Listed(digit, files);
         && 1 <= expected <= |ms| && ms[expected - 1].version == found
         && forall k :: 0 <= k < expected - 1 ==> ms[k].version == k + 1
    case _ => false
  }

  /** Accepted exactly when every .sql file is well named and n files hold the versions 1..n;
      then they come back in version order. */
  method Discover(digit: Digits, files: seq<File>) returns (r: Result<seq<Migration>, Error>)
    ensures r.Success? <==> Accepted(digit, files)
    ensures r.Success? ==>
              && r.value == Listed(digit, files) && Versioned(r.value)
              && multiset(r.value) == multiset(ParseAll(digit, files))
    ensures r.Failure? ==> RefusedAs(digit, files, r.error)
  {
    var parsed: seq<Migration> := [];
    for i := 0 to |files|
      invariant AllNamed(digit, files[..i]) && parsed == ParseAll(digit, files[..i])
    {
      assert files[..i + 1][..i] == files[..i];
      if IsSql(files[i].name) {
        if !WellNamed(digit, files[i].name) {
          return Failure(BadName(files[i].name));
        }
        parsed := parsed + [Parse(digit, files[i])];
      }
    }
    assert files[..|files|] == files;
    SortMembers(parsed, ByVersion());
    SortByVersion(parsed);
    var sorted := Sort(parsed, ByVersion());
    SameVersions(parsed, sorted);
    for i := 0 to |sorted|
      invariant forall k :: 0 <= k < i ==> sorted[k].version == k + 1
    {
      if sorted[i].version != i + 1 {
        if Gapless(sorted) {
          SortedGapless(sorted, i);
        }
        return Failure(Gap(i + 1, sorted[i].version));
      }
    }
    VersionedGapless(sorted);
    return Success(sorted);
  }

  lemma VersionedGapless(ms: seq<Migration>)
    requires Versioned(ms)
    ensures Gapless(ms)
  {
    forall v: nat | 1 <= v <= |ms|
      ensures Has(ms, v)
    {
      assert ms[v - 1] in ms;
    }
  }

  // ---- Applying ------------------------------------------------------------------------------

  /** The schema and the `_migrations` bookkeeping table. */
  datatype Db<S> = Db(schema: S, applied: set<nat>)

  /** What a script makes of a schema, if it runs through. */
  type Scripts<!S> = (string, S) -> Option<S>

  /** The first migrations run in order on the initial schema. */
  function Fold<S>(run: Scripts<S>, initial: S, ms: seq<Migration>): Option<S> {
    if ms == [] then Some(initial)
    else
      var before := Fold(run, initial, ms[..|ms| - 1]);
      if before.None? then None else run(ms[|ms| - 1].source, before.value)
  }

  function FirstVersions(k: nat): set<nat> {
    if k == 0 then {} else FirstVersions(k - 1) + {k}
  }

  lemma {:induction false} FirstVersionsAre(k: nat, v: nat)
    ensures v in FirstVersions(k) <==> 1 <= v <= k
  {
    if k > 0 {
      FirstVersionsAre(k - 1, v);
    }
  }

  /** Exactly the first k migrations are applied, and the schema is what they make. */
  ghost predicate At<S>(run: Scripts<S>, initial: S, ms: seq<Migration>, db: Db<S>, k: nat) {
    && k <= |ms| && db.applied == FirstVersions(k)
    && Fold(run, initial, ms[..k]) == Some(db.schema)
  }

  lemma AtNext<S>(run: Scripts<S>, initial: S, ms: seq<Migration>, db: Db<S>, db': Db<S>, k: nat)
    requires At(run, initial, ms, db, k) && k < |ms| && Versioned(ms)
    requires run(ms[k].source, db.schema) == Some(db'.schema) && db'.applied == db.applied + {k + 1}
    ensures At(run, initial, ms, db', k + 1)
  {
    assert ms[..k + 1][..k] == ms[..k];
  }

  /** A longer directory does not change what was applied. */
  lemma AtGrown<S>(run: Scripts<S>, initial: S, ms: seq<Migration>, ms': seq<Migration>, db: Db<S>, k: nat)
    requires At(run, initial, ms, db, k) && ms <= ms'
    ensures At(run, initial, ms', db, k)
  {
    assert ms'[..k] == ms[..k];
  }

  /** `_apply_one`: body and bookkeeping row inside one explicit transaction. */
  method ApplyOne<S(0)>(conn: Connection<Db<S>>, run: Scripts<S>, m: Migration) returns (ok: bool)
    requires conn.Valid() && !conn.inTransaction
    modifies conn
    ensures conn.Valid()
    ensures ok ==>
              && !conn.inTransaction
              && run(m.source, old(conn.committed).schema) == Some(conn.committed.schema)
              && conn.committed.applied == old(conn.committed).applied + {m.version}
    ensures !ok ==> conn.committed == old(conn.committed)
    // It fails only if the script does or the database does; a transaction stays open only if it does.
    ensures old(conn.faults) <= conn.faults
    ensures !ok ==> old(conn.faults) < conn.faults || run(m.source, old(conn.committed).schema).None?
    ensures conn.inTransaction ==> old(conn.faults) < conn.faults
  {
    ok := conn.Begin();
    if ok {
      var next := run(m.source, conn.working.schema);
      var through := Query(conn);
      if next.None? || !through {
        // Some statements ran before one failed.
        var partial: S := *;
        conn.working := conn.working.(schema := partial);
        ok := false;
      } else {
        conn.working := Db(next.value, conn.working.applied + {m.version});
        ok := conn.Commit();
      }
    }
    if !ok {
      var _ := conn.Rollback();
    }
  }

  /** `_ensure_migrations_table`, then `_fetch_applied_versions`: SQL at every startup. */
  method FetchApplied<S>(conn: Connection<Db<S>>) returns (r: Result<set<nat>, Error>)
    modifies conn`faults
    ensures if conn.faults == old(conn.faults) then r == Success(conn.committed.applied) else r == Failure(BookkeepingFailed)
    ensures old(conn.faults) <= conn.faults
  {
    var created := Query(conn);
    var fetched := false;
    if created {
      fetched := Query(conn);
    }
    return if fetched then Success(conn.committed.applied) else Failure(BookkeepingFailed);
  }

  /** One startup, which may fail anywhere. Exactly a prefix of the directory's migrations is
      applied, and it has not shrunk; a startup that succeeds applied all the rest; with nothing
      pending it changes nothing. A refused directory, or bookkeeping that cannot be read,
      changes nothing either. */
  method ApplyMigrations<S(0)>(conn: Connection<Db<S>>, run: Scripts<S>, digit: Digits, files: seq<File>,
                               ghost initial: S, ghost known: seq<Migration>, ghost k: nat)
    returns (r: Result<seq<Migration>, Error>, ghost k': nat)
    requires conn.Valid() && !conn.inTransaction
    requires At(run, initial, known, conn.committed, k)
    requires Accepted(digit, files) ==> known <= Listed(digit, files)
    modifies conn
    ensures conn.Valid()
    ensures r.Failure? && !r.error.ApplyFailed? ==> conn.committed == old(conn.committed) && k' == k
    ensures r.Failure? && (r.error.BadName? || r.error.Gap?) <==> !Accepted(digit, files)
    ensures Accepted(digit, files) ==> k <= k' && At(run, initial, Listed(digit, files), conn.committed, k')
    ensures r.Success? ==> k' == |Listed(digit, files)| && r.value == Listed(digit, files)[k..]
    ensures r.Failure? && r.error.ApplyFailed? ==>
              k' < |Listed(digit, files)| && r.error == ApplyFailed(k' + 1)
    ensures Accepted(digit, files) && k == |Listed(digit, files)| ==>
              && conn.committed == old(conn.committed)
              && (r == Success([]) || r == Failure(BookkeepingFailed))
    // It fails only for the directory, for the database, or for a script that does not run through.
    ensures r.Failure? && conn.faults == old(conn.faults) ==>
              if Accepted(digit, files) then
                && r.error.ApplyFailed? && r.error.version == k' + 1 && k' < |Listed(digit, files)|
                && run(Listed(digit, files)[k'].source, conn.committed.schema).None?
              else RefusedAs(digit, files, r.error)
  {
    k' := k;
    var discovered := Discover(digit, files);
    if discovered.Failure? {
      return Failure(discovered.error), k;
    }
    var ms := discovered.value;
    AtGrown(run, initial, known, ms, conn.committed, k);
    var fetched := FetchApplied(conn);
    if fetched.Failure? {
      return Failure(fetched.error), k;
    }
    r, k' := ApplyPending(conn, run, ms, fetched.value, initial, k);
  }

  /** The loop over the discovered migrations. */
  method ApplyPending<S(0)>(conn: Connection<Db<S>>, run: Scripts<S>, ms: seq<Migration>, applied: set<nat>,
                            ghost initial: S, ghost k: nat)
    returns (r: Result<seq<Migration>, Error>, ghost k': nat)
    requires conn.Valid() && !conn.inTransaction && Versioned(ms)
    requires At(run, initial, ms, conn.committed, k) && applied == conn.committed.applied
    modifies conn
    ensures conn.Valid() && k <= k' && At(run, initial, ms, conn.committed, k')
    ensures r.Success? ==> k' == |ms| && r.value == ms[k..]
    ensures r.Failure? ==> k' < |ms| && r.error == ApplyFailed(k' + 1)
    ensures k == |ms| ==> r == Success([]) && conn.committed == old(conn.committed)
    ensures old(conn.faults) <= conn.faults
    ensures r.Failure? && conn.faults == old(conn.faults) ==> run(ms[k'].source, conn.committed.schema).None?
  {
    k' := k;
    var newly: seq<Migration> := [];
    for i := 0 to |ms|
      invariant conn.Valid() && !conn.inTransaction
      invariant k' == (if i <= k then k else i) && At(run, initial, ms, conn.committed, k')
      invariant newly == ms[k..k']
      invariant i <= k ==> conn.committed == old(conn.committed)
      invariant old(conn.faults) <= conn.faults
    {
      assert ms[i].version == i + 1;
      FirstVersionsAre(k, i + 1);
      assert ms[i].version in applied <==> i < k;
      if ms[i].version !in applied {
        ghost var before := conn.committed;
        var ok := ApplyOne(conn, run, ms[i]);
        if !ok {
          return Failure(ApplyFailed(ms[i].version)), k';
        }
        AtNext(run, initial, ms, before, conn.committed, k');
        assert ms[k..i + 1] == ms[k..i] + [ms[i]];
        newly := newly + [ms[i]];
        k' := i + 1;
      }
    }
    return Success(newly), k';
  }

  /** The migrations of the last directory that passed discovery. */
  ghost function LastListed(digit: Digits, dirs: seq<seq<File>>): seq<Migration> {
    if dirs == [] then []
    else
      var n := |dirs| - 1;
      if Accepted(digit, dirs[n]) then Listed(digit, dirs[n]) else LastListed(digit, dirs[..n])
  }

  /** The directory is append-only: whenever one passes discovery, it extends the last one that
      did. Broken directories in between are whatever they are. */
  ghost predicate Growing(digit: Digits, dirs: seq<seq<File>>) {
    forall i :: 0 <= i < |dirs| && Accepted(digit, dirs[i]) ==> LastListed(digit, dirs[..i]) <= Listed(digit, dirs[i])
  }

  /** Startups of a growing directory, each in a fresh process that may fail anywhere, refused
      directories among them: the applied versions are 1..k, the schema is the fold of the first
      k sources, and the startup succeeded only if the directory passed and k is all of it. */
  method Startups<S(0)>(run: Scripts<S>, digit: Digits, initial: S, dirs: seq<seq<File>>)
    returns (db: Db<S>, succeeded: seq<bool>, ghost k: nat)
    requires Growing(digit, dirs)
    ensures |succeeded| == |dirs|
    ensures At(run, initial, LastListed(digit, dirs), db, k)
    ensures dirs != [] && succeeded[|dirs| - 1] ==>
              Accepted(digit, dirs[|dirs| - 1]) && k == |Listed(digit, dirs[|dirs| - 1])|
  {
    db, succeeded, k := Db(initial, {}), [], 0;
    for i := 0 to |dirs|
      invariant |succeeded| == i && At(run, initial, LastListed(digit, dirs[..i]), db, k)
      invariant i > 0 && succeeded[i - 1] ==> Accepted(digit, dirs[i - 1]) && k == |Listed(digit, dirs[i - 1])|
    {
      var conn := new Connection(db);
      var r;
      r, k := ApplyMigrations(conn, run, digit, dirs[i], initial, LastListed(digit, dirs[..i]), k);
      db, succeeded := conn.committed, succeeded + [r.Success?];
      assert dirs[..i + 1][..i] == dirs[..i];
    }
    assert dirs[..|dirs|] == dirs;
  }
}
