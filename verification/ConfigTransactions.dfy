/**
 * Re-entrant transactions over one SQLite connection: the outermost call is BEGIN/COMMIT, an inner one a savepoint
 * named after the depth. Programs are arbitrary trees of statements, throws, catches and nested transactions.
 *
 * The COMMIT and RELEASE statements themselves are taken not to fail.
 */
module ConfigTransactions {
  import opened Options

  /** Rows by primary key. */
  type Db = map<string, string>

  datatype Program =
    | Put(key: string, value: string)
    | Insert(key: string, value: string) // throws when the key is taken
    | Delete(key: string)
    | IfPresent(key: string, yes: Program, no: Program)
    | Throw
    | Skip
    | Then(first: Program, second: Program)
    | Catch(body: Program, handler: Program)
    | Transaction(body: Program)

  datatype Outcome = Outcome(db: Db, threw: bool)

  /** What a program means: a transaction that throws contributes nothing. */
  function Meaning(p: Program, db: Db): Outcome {
    match p
    case Put(key, value) => Outcome(db[key := value], false)
    case Insert(key, value) => if key in db then Outcome(db, true) else Outcome(db[key := value], false)
    case Delete(key) => Outcome(db - {key}, false)
    case IfPresent(key, yes, no) => if key in db then Meaning(yes, db) else Meaning(no, db)
    case Throw => Outcome(db, true)
    case Skip => Outcome(db, false)
    case Then(first, second) =>
      var o := Meaning(first, db);
      if o.threw then o else Meaning(second, o.db)
    case Catch(body, handler) =>
      var o := Meaning(body, db);
      if o.threw then Meaning(handler, o.db) else o
    case Transaction(body) =>
      var o := Meaning(body, db);
      if o.threw then Outcome(db, true) else o
  }

  // ── Surviving writes ───────────────────────────────────────────────────────

  datatype Change = Set(key: string, value: string) | Remove(key: string)

  /** The writes of a run that no failed transaction took back, in order. */
  function Survivors(p: Program, db: Db): seq<Change> {
    match p
    case Put(key, value) => [Set(key, value)]
    case Insert(key, value) => if key in db then [] else [Set(key, value)]
    case Delete(key) => [Remove(key)]
    case IfPresent(key, yes, no) => if key in db then Survivors(yes, db) else Survivors(no, db)
    case Throw => []
    case Skip => []
    case Then(first, second) =>
      var o := Meaning(first, db);
      Survivors(first, db) + if o.threw then [] else Survivors(second, o.db)
    case Catch(body, handler) =>
      var o := Meaning(body, db);
      Survivors(body, db) + if o.threw then Survivors(handler, o.db) else []
    case Transaction(body) =>
      if Meaning(body, db).threw then [] else Survivors(body, db)
  }

  function Replay(db: Db, changes: seq<Change>): Db {
    if changes == [] then db
    else
      var rest := Replay(db, changes[..|changes| - 1]);
      match changes[|changes| - 1]
      case Set(key, value) => rest[key := value]
      case Remove(key) => rest - {key}
  }

  lemma {:induction false} ReplayInTwo(db: Db, a: seq<Change>, b: seq<Change>)
    ensures Replay(db, a + b) == Replay(Replay(db, a), b)
  {
    if b == [] {
      assert a + b == a;
    } else {
      ReplayInTwo(db, a, b[..|b| - 1]);
      assert (a + b)[..|a + b| - 1] == a + b[..|b| - 1];
    }
  }

  /** The final database is the first one with the surviving writes replayed over it, and nothing else. */
  lemma {:induction false} SurvivorsExplainTheDatabase(p: Program, db: Db)
    ensures Meaning(p, db).db == Replay(db, Survivors(p, db))
  {
    assert forall c: Change :: [c][..0] == [];
    match p
    case IfPresent(key, yes, no) =>
      SurvivorsExplainTheDatabase(yes, db);
      SurvivorsExplainTheDatabase(no, db);
    case Then(first, second) =>
      var o := Meaning(first, db);
      SurvivorsExplainTheDatabase(first, db);
      SurvivorsExplainTheDatabase(second, o.db);
      ReplayInTwo(db, Survivors(first, db), if o.threw then [] else Survivors(second, o.db));
    case Catch(body, handler) =>
      var o := Meaning(body, db);
      SurvivorsExplainTheDatabase(body, db);
      SurvivorsExplainTheDatabase(handler, o.db);
      ReplayInTwo(db, Survivors(body, db), if o.threw then Survivors(handler, o.db) else []);
    case Transaction(body) =>
      SurvivorsExplainTheDatabase(body, db);
    case _ =>
  }

  /** With every transaction wrapper removed. */
  function Bare(p: Program): Program {
    match p
    case IfPresent(key, yes, no) => IfPresent(key, Bare(yes), Bare(no))
    case Then(first, second) => Then(Bare(first), Bare(second))
    case Catch(body, handler) => Catch(Bare(body), Bare(handler))
    case Transaction(body) => Bare(body)
    case _ => p
  }

  ghost predicate NoTransaction(p: Program) {
    match p
    case IfPresent(_, yes, no) => NoTransaction(yes) && NoTransaction(no)
    case Then(first, second) => NoTransaction(first) && NoTransaction(second)
    case Catch(body, handler) => NoTransaction(body) && NoTransaction(handler)
    case Transaction(_) => false
    case _ => true
  }

  /** No wrapper is left, and a program without one is left as it is. */
  lemma {:induction false} BareHasNoTransaction(p: Program)
    ensures NoTransaction(Bare(p)) && (NoTransaction(p) ==> Bare(p) == p)
  {
    match p
    case IfPresent(_, yes, no) =>
      BareHasNoTransaction(yes);
      BareHasNoTransaction(no);
    case Then(first, second) =>
      BareHasNoTransaction(first);
      BareHasNoTransaction(second);
    case Catch(body, handler) =>
      BareHasNoTransaction(body);
      BareHasNoTransaction(handler);
    case Transaction(body) =>
      BareHasNoTransaction(body);
    case _ =>
  }

  /** No catch anywhere. */
  predicate Uncaught(p: Program) {
    match p
    case IfPresent(_, yes, no) => Uncaught(yes) && Uncaught(no)
    case Then(first, second) => Uncaught(first) && Uncaught(second)
    case Catch(_, _) => false
    case Transaction(body) => Uncaught(body)
    case _ => true
  }

  /**
   * Composing operations that transact internally inside one transaction is one atomic unit: the inner ones change
   * nothing.
   */
  lemma {:induction false} InnerTransactionsAreInvisible(p: Program, db: Db)
    requires Uncaught(p)
    ensures Meaning(p, db).threw == Meaning(Bare(p), db).threw
    ensures !Meaning(p, db).threw ==> Meaning(p, db) == Meaning(Bare(p), db)
    ensures Meaning(Transaction(p), db) == Meaning(Transaction(Bare(p)), db)
  {
    match p
    case IfPresent(key, yes, no) =>
      InnerTransactionsAreInvisible(yes, db);
      InnerTransactionsAreInvisible(no, db);
    case Then(first, second) =>
      InnerTransactionsAreInvisible(first, db);
      InnerTransactionsAreInvisible(second, Meaning(first, db).db);
    case Transaction(body) =>
      InnerTransactionsAreInvisible(body, db);
    case _ =>
  }

  // ── Savepoint names ────────────────────────────────────────────────────────

  function Digits(n: nat): (s: string)
    ensures |s| > 0
  {
    if n < 10 then ["0123456789"[n]] else Digits(n / 10) + ["0123456789"[n % 10]]
  }

  function Name(depth: nat): string {
    "sp_" + Digits(depth)
  }

  lemma {:induction false} DigitsDiffer(m: nat, n: nat)
    requires Digits(m) == Digits(n)
    ensures m == n
  {
    var a, b := Digits(m), Digits(n);
    assert a[|a| - 1] == "0123456789"[m % 10] && b[|b| - 1] == "0123456789"[n % 10];
    if m >= 10 && n >= 10 {
      assert a[..|a| - 1] == Digits(m / 10) && b[..|b| - 1] == Digits(n / 10);
      DigitsDiffer(m / 10, n / 10);
    }
  }

  lemma NamesDiffer(m: nat, n: nat)
    requires Name(m) == Name(n)
    ensures m == n
  {
    assert Name(m)[3..] == Digits(m) && Name(n)[3..] == Digits(n);
    DigitsDiffer(m, n);
  }

  // ── The connection ─────────────────────────────────────────────────────────

  datatype Savepoint<S> = Savepoint(name: string, saved: S)

  /** The savepoint a name refers to: the most recent one so called, or none. */
  function Resolve<S>(stack: seq<Savepoint<S>>, name: string): (i: int)
    ensures -1 <= i < |stack|
    ensures i >= 0 ==> stack[i].name == name
    ensures forall j | i < j < |stack| :: stack[j].name != name
  {
    if stack == [] then -1
    else if stack[|stack| - 1].name == name then |stack| - 1
    else Resolve(stack[..|stack| - 1], name)
  }

  /** At depth d the open savepoints are sp_1 to sp_(d-1), above one BEGIN. */
  ghost predicate Nested<S>(stack: seq<Savepoint<S>>) {
    forall i | 0 <= i < |stack| :: stack[i].name == Name(i + 1)
  }

  lemma NestedAt<S>(stack: seq<Savepoint<S>>, i: nat)
    requires Nested(stack) && i < |stack|
    ensures stack[i].name == Name(i + 1)
  {
  }

  lemma NestedDeeper<S>(stack: seq<Savepoint<S>>, saved: S)
    requires Nested(stack)
    ensures Nested(stack + [Savepoint(Name(|stack| + 1), saved)])
  {
  }

  lemma NestedShallower<S>(stack: seq<Savepoint<S>>)
    requires Nested(stack) && stack != []
    ensures Nested(stack[..|stack| - 1])
  {
  }

  /** Each open savepoint's name refers to its own frame, not to an inner one. */
  lemma NamesResolveToTheirOwnFrame<S>(stack: seq<Savepoint<S>>, i: nat)
    requires Nested(stack) && i < |stack|
    ensures Resolve(stack, Name(i + 1)) == i
  {
    hide Name, Digits, Resolve, Nested;
    var name := Name(i + 1);
    var found := Resolve(stack, name);
    NestedAt(stack, i);
    assert found >= i;
    NestedAt(stack, found);
    NamesDiffer(found + 1, i + 1);
  }

  /** One SQLite connection, whatever its tables are. */
  class Connection<S> {
    var db: S
    var begun: Option<S>
    var savepoints: seq<Savepoint<S>>
    var transactionDepth: nat

    ghost predicate Valid()
      reads this
    {
      && (transactionDepth == 0 <==> begun.None?)
      && |savepoints| == (if transactionDepth == 0 then 0 else transactionDepth - 1)
      && Nested(savepoints)
    }

    /** What the innermost open transaction goes back to when it fails. */
    ghost function Saved(): S
      requires Valid() && transactionDepth > 0
      reads this
    {
      if transactionDepth == 1 then begun.value else savepoints[|savepoints| - 1].saved
    }

    constructor (db: S)
      ensures Valid() && this.db == db && transactionDepth == 0
    {
      this.db, begun, savepoints, transactionDepth := db, None, [], 0;
    }

    // SQL statements; `ok` is false where SQLite reports an error.

    method Begin() returns (ok: bool)
      modifies this`begun
      ensures ok <==> old(begun).None?
      ensures begun == if ok then Some(db) else old(begun)
    {
      ok := begun.None?;
      if ok { begun := Some(db); }
    }

    method Commit() returns (ok: bool)
      modifies this`begun, this`savepoints
      ensures ok <==> old(begun).Some?
      ensures ok ==> begun.None? && savepoints == []
      ensures !ok ==> begun == old(begun) && savepoints == old(savepoints)
    {
      ok := begun.Some?;
      if ok { begun, savepoints := None, []; }
    }

    method Rollback() returns (ok: bool)
      modifies this`db, this`begun, this`savepoints
      ensures ok <==> old(begun).Some?
      ensures ok ==> db == old(begun).value && begun.None? && savepoints == []
      ensures !ok ==> db == old(db) && begun == old(begun) && savepoints == old(savepoints)
    {
      ok := begun.Some?;
      if ok { db, begun, savepoints := begun.value, None, []; }
    }

    method OpenSavepoint(name: string)
      modifies this`savepoints
      ensures savepoints == old(savepoints) + [Savepoint(name, db)]
    {
      savepoints := savepoints + [Savepoint(name, db)];
    }

    /** The named savepoint and those above it are gone; the database stays. */
    method Release(name: string) returns (ok: bool)
      modifies this`savepoints
      ensures ok <==> Resolve(old(savepoints), name) >= 0
      ensures savepoints == if ok then old(savepoints)[..Resolve(old(savepoints), name)] else old(savepoints)
    {
      var i := Resolve(savepoints, name);
      ok := i >= 0;
      if ok { savepoints := savepoints[..i]; }
    }

    /** Back to the named savepoint, which stays open. */
    method RollbackTo(name: string) returns (ok: bool)
      modifies this`db, this`savepoints
      ensures ok <==> Resolve(old(savepoints), name) >= 0
      ensures ok ==> db == old(savepoints)[Resolve(old(savepoints), name)].saved
                     && savepoints == old(savepoints)[..Resolve(old(savepoints), name) + 1]
      ensures !ok ==> db == old(db) && savepoints == old(savepoints)
    {
      var i := Resolve(savepoints, name);
      ok := i >= 0;
      if ok { db, savepoints := savepoints[i].saved, savepoints[..i + 1]; }
    }

    /** What `transaction` does before it runs its body. No statement it issues is ever in error. */
    method Enter()
      requires Valid()
      modifies this`begun, this`savepoints, this`transactionDepth
      ensures Valid() && transactionDepth == old(transactionDepth) + 1 && Saved() == db
      ensures old(transactionDepth) == 0 ==> savepoints == old(savepoints)
      ensures old(transactionDepth) > 0 ==>
                begun == old(begun) && savepoints == old(savepoints) + [Savepoint(Name(old(transactionDepth)), db)]
    {
      hide Name, Digits, Resolve, Nested;
      var ok := true;
      if transactionDepth == 0 {
        ok := Begin();
      } else {
        NestedDeeper(savepoints, db);
        OpenSavepoint(Name(transactionDepth));
      }
      assert ok;
      transactionDepth := transactionDepth + 1;
    }

    /** And after it: commit or release when the body returned, go back to what was saved when it threw. */
    method Leave(threw: bool)
      requires Valid() && transactionDepth > 0
      modifies this
      ensures Valid() && transactionDepth == old(transactionDepth) - 1
      ensures db == if threw then old(Saved()) else old(db)
      ensures old(transactionDepth) == 1 ==> begun.None? && savepoints == old(savepoints)
      ensures old(transactionDepth) > 1 ==>
                begun == old(begun) && savepoints == old(savepoints)[..|old(savepoints)| - 1]
    {
      hide Name, Digits, Resolve, Nested;
      transactionDepth := transactionDepth - 1;
      var savepoint := Name(transactionDepth);
      var ok;
      if transactionDepth > 0 {
        NamesResolveToTheirOwnFrame(savepoints, transactionDepth - 1);
        NestedShallower(savepoints);
      }
      if !threw {
        if transactionDepth == 0 {
          ok := Commit();
        } else {
          ok := Release(savepoint);
        }
        assert ok;
      } else {
        if transactionDepth == 0 {
          ok := Rollback();
          assert ok;
        } else {
          ghost var before := savepoints;
          ok := RollbackTo(savepoint);
          assert ok;
          assert savepoints == before;
          ok := Release(savepoint);
          assert ok;
        }
      }
    }
  }

  /** Run `body` inside a transaction, re-entrantly. */
  method RunTransaction(c: Connection<Db>, body: Program) returns (threw: bool)
    requires c.Valid()
    modifies c
    ensures c.Valid() && c.transactionDepth == old(c.transactionDepth)
    ensures c.begun == old(c.begun) && c.savepoints == old(c.savepoints)
    ensures Outcome(c.db, threw) == Meaning(Transaction(body), old(c.db))
    decreases body, 1
  {
    hide Name, Digits, Nested;
    c.Enter();
    threw := Execute(c, body);
    c.Leave(threw);
    assert c.savepoints == old(c.savepoints);
  }

  method Execute(c: Connection<Db>, p: Program) returns (threw: bool)
    requires c.Valid()
    modifies c
    ensures c.Valid() && c.transactionDepth == old(c.transactionDepth)
    ensures c.begun == old(c.begun) && c.savepoints == old(c.savepoints)
    ensures Outcome(c.db, threw) == Meaning(p, old(c.db))
    decreases p, 0
  {
    hide Name, Digits, Nested;
    threw := false;
    match p
    case Put(key, value) => c.db := c.db[key := value];
    case Insert(key, value) =>
      if key in c.db { return true; }
      c.db := c.db[key := value];
    case Delete(key) => c.db := c.db - {key};
    case IfPresent(key, yes, no) =>
      if key in c.db { threw := Execute(c, yes); } else { threw := Execute(c, no); }
    case Throw => threw := true;
    case Skip =>
    case Then(first, second) =>
      threw := Execute(c, first);
      if !threw { threw := Execute(c, second); }
    case Catch(body, handler) =>
      threw := Execute(c, body);
      if threw { threw := Execute(c, handler); }
    case Transaction(body) => threw := RunTransaction(c, body);
  }
}
