/**
 The company deletion told by rows and references alone: a row goes exactly when it can be reached from one of the
 company's rows along cascading references, and the deletion fails exactly when some models stay protected.
 */
module DeletionPaths {
  import opened Wrappers
  import opened CompanyDeletion

  /** Rows of the table, each but the first referring to the one before it by a cascading reference. */
  predicate CascadePath(db: Db, path: seq<RowId>) {
    && path != [] && (forall i | 0 <= i < |path| :: path[i] in db.table)
    && forall i | 0 < i < |path| :: (path[i], path[i - 1]) in db.cascades
  }

  predicate Leads(db: Db, path: seq<RowId>, x: RowId, y: RowId) {
    CascadePath(db, path) && path[0] == x && path[|path| - 1] == y
  }

  /** A row of this company in one of these models. */
  predicate CompanyRow(db: Db, company: Company, models: set<Model>, x: RowId) {
    x in db.table && db.table[x].company == Some(company) && db.table[x].model in models
  }

  /** Deleting the company's rows of these models takes y along. */
  ghost predicate Doomed(db: Db, company: Company, models: set<Model>, y: RowId) {
    exists x, path {:trigger Leads(db, path, x, y)} :: CompanyRow(db, company, models, x) && Leads(db, path, x, y)
  }

  // ---------- collecting is reaching ----------

  /** A path whose rows are all among these and that starts inside a closed set stays inside it. */
  lemma {:induction false} PathStays(db: Db, rows: set<RowId>, z: set<RowId>, path: seq<RowId>)
    requires CascadePath(db, path) && Closed(rows, db.cascades, z) && path[0] in z
    requires forall i | 0 <= i < |path| :: path[i] in rows
    ensures path[|path| - 1] in z
    decreases |path|
  {
    if |path| > 1 {
      var front := path[..|path| - 1];
      PathStays(db, rows, z, front);
      assert (path[|path| - 1], front[|front| - 1]) in db.cascades;
    }
  }

  lemma PathGrows(db: Db, path: seq<RowId>, x: RowId, y: RowId, next: RowId)
    requires Leads(db, path, x, y) && next in db.table && (next, y) in db.cascades
    ensures Leads(db, path + [next], x, next)
  {
  }

  /** What goes along with some rows, while only these rows are left, is what a path among them reaches. */
  ghost predicate Reached(db: Db, rows: set<RowId>, some: set<RowId>, y: RowId) {
    exists x, path {:trigger Leads(db, path, x, y)} ::
      x in some && Leads(db, path, x, y) && forall i | 0 <= i < |path| :: path[i] in rows
  }

  lemma ReachedIsCollected(db: Db, rows: set<RowId>, some: set<RowId>, y: RowId)
    requires Reached(db, rows, some, y)
    ensures y in Collect(rows, db.cascades, some)
  {
    CollectIsClosed(rows, db.cascades, some);
    var x, path :| x in some && Leads(db, path, x, y) && forall i | 0 <= i < |path| :: path[i] in rows;
    PathStays(db, rows, Collect(rows, db.cascades, some), path);
  }

  lemma ReachedNext(db: Db, rows: set<RowId>, some: set<RowId>, y: RowId, next: RowId)
    requires rows <= db.table.Keys && next in rows && Reached(db, rows, some, y) && (next, y) in db.cascades
    ensures Reached(db, rows, some, next)
  {
    var x, path :| x in some && Leads(db, path, x, y) && forall i | 0 <= i < |path| :: path[i] in rows;
    PathGrows(db, path, x, y, next);
  }

  lemma CollectedIsReached(db: Db, rows: set<RowId>, some: set<RowId>, y: RowId)
    requires some <= rows <= db.table.Keys && y in Collect(rows, db.cascades, some)
    ensures Reached(db, rows, some, y)
  {
    var z := set r | r in rows && Reached(db, rows, some, r);
    forall x | x in some
      ensures x in z
    {
      assert Leads(db, [x], x, x);
    }
    forall r | r in db.cascades && r.0 in rows && r.1 in z
      ensures r.0 in z
    {
      ReachedNext(db, rows, some, r.1, r.0);
    }
    CollectIsSmallest(rows, db.cascades, some, z);
  }

  lemma CollectIffReached(db: Db, rows: set<RowId>, some: set<RowId>, y: RowId)
    requires some <= rows <= db.table.Keys
    ensures y in Collect(rows, db.cascades, some) <==> Reached(db, rows, some, y)
  {
    if Reached(db, rows, some, y) {
      ReachedIsCollected(db, rows, some, y);
    }
    if y in Collect(rows, db.cascades, some) {
      CollectedIsReached(db, rows, some, y);
    }
  }

  lemma DoomedIffReached(db: Db, company: Company, models: set<Model>, y: RowId)
    ensures Doomed(db, company, models, y) <==> Reached(db, db.table.Keys, Own(db, company, models), y)
  {
    if x, path :| CompanyRow(db, company, models, x) && Leads(db, path, x, y) {
      assert x in Own(db, company, models);
    }
    if x, path :| x in Own(db, company, models) && Leads(db, path, x, y)
                  && forall i | 0 <= i < |path| :: path[i] in db.table.Keys {
      assert CompanyRow(db, company, models, x);
    }
  }

  /** What is left once the company's rows of some models are gone: the rows that are not doomed by them. */
  lemma RestIsSpared(db: Db, company: Company, models: set<Model>, y: RowId)
    ensures y in Rest(db, company, models) <==> y in db.table && !Doomed(db, company, models, y)
  {
    DoomedIffReached(db, company, models, y);
    CollectIffReached(db, db.table.Keys, Own(db, company, models), y);
  }

  // ---------- success ----------

  /** A deletion that succeeds leaves exactly the rows that no path of cascading references leads to from a row of the
      company, and counts all others. */
  lemma SuccessSparesOthers(db: Db, company: Company, models: seq<Model>)
    requires DeleteAll(db, company, models).blocked == []
    ensures var end := DeleteAll(db, company, models);
            && (forall y :: y in end.rows <==> y in db.table && !Doomed(db, company, Members(models), y))
            && end.deleted == |set y | y in db.table && Doomed(db, company, Members(models), y)|
  {
    var end := DeleteAll(db, company, models);
    SuccessIsComplete(db, company, models);
    forall y
      ensures y in end.rows <==> y in db.table && !Doomed(db, company, Members(models), y)
    {
      RestIsSpared(db, company, Members(models), y);
    }
    var doomed := set y | y in db.table && Doomed(db, company, Members(models), y);
    assert end.rows + doomed == db.table.Keys && end.rows !! doomed;
  }

  lemma FewerModelsDoomFewer(db: Db, company: Company, some: set<Model>, models: set<Model>, y: RowId)
    requires some <= models && Doomed(db, company, some, y)
    ensures Doomed(db, company, models, y)
  {
    var x, path :| CompanyRow(db, company, some, x) && Leads(db, path, x, y);
    assert CompanyRow(db, company, models, x);
  }

  /** However the deletion ends, a row that no such path leads to is left: above all the rows of other companies, and
      of none, that do not hang on this one. */
  lemma OthersAreSpared(db: Db, company: Company, models: seq<Model>, y: RowId)
    requires y in db.table && !Doomed(db, company, Members(models), y)
    ensures y in DeleteAll(db, company, models).rows
  {
    DeletionExplained(db, company, models);
    var gone := GoneModels(db, company, models);
    if Doomed(db, company, gone, y) {
      FewerModelsDoomFewer(db, company, gone, Members(models), y);
    }
    RestIsSpared(db, company, gone, y);
  }

  lemma LastRefers(db: Db, path: seq<RowId>, x: RowId, y: RowId)
    ensures Leads(db, path, x, y) ==> x == y || exists r :: r in db.cascades && r.0 == y
  {
    if Leads(db, path, x, y) && |path| > 1 {
      assert (path[|path| - 1], path[|path| - 2]) in db.cascades;
    }
  }

  /** A row that refers to nothing by a cascading reference goes only if it is the company's own. */
  lemma FreeRowOfOtherCompany(db: Db, company: Company, models: seq<Model>, y: RowId)
    requires y in db.table && db.table[y].company != Some(company)
    requires forall r {:trigger r in db.cascades} | r in db.cascades :: r.0 != y
    ensures y in DeleteAll(db, company, models).rows
  {
    forall x, path | CompanyRow(db, company, Members(models), x)
      ensures !Leads(db, path, x, y)
    {
      LastRefers(db, path, x, y);
    }
    OthersAreSpared(db, company, models, y);
  }

  // ---------- failure ----------

  /** With the company's rows of the other models gone, a row of this model still takes one along that a row still
      there protects. */
  ghost predicate Stuck(db: Db, company: Company, others: set<Model>, m: Model) {
    exists x, path, z {:trigger Leads(db, path, x, path[|path| - 1]), (z, path[|path| - 1]) in db.protects} ::
      && CompanyRow(db, company, {m}, x) && path != [] && Leads(db, path, x, path[|path| - 1])
      && (forall i | 0 <= i < |path| :: !Doomed(db, company, others, path[i]))
      && z in db.table && !Doomed(db, company, others, z) && (z, path[|path| - 1]) in db.protects
  }

  lemma StuckIsBlocked(db: Db, company: Company, others: set<Model>, m: Model)
    requires Stuck(db, company, others, m)
    ensures Blocked(db, Rest(db, company, others), company, m)
  {
    var rows := Rest(db, company, others);
    var x, path, z :| CompanyRow(db, company, {m}, x) && path != [] && Leads(db, path, x, path[|path| - 1])
      && (forall i | 0 <= i < |path| :: !Doomed(db, company, others, path[i]))
      && z in db.table && !Doomed(db, company, others, z) && (z, path[|path| - 1]) in db.protects;
    var y := path[|path| - 1];
    forall i | 0 <= i < |path|
      ensures path[i] in rows
    {
      RestIsSpared(db, company, others, path[i]);
    }
    RestIsSpared(db, company, others, z);
    assert x in Own(db, company, {m}) * rows;
    assert Reached(db, rows, Own(db, company, {m}) * rows, y);
    ReachedIsCollected(db, rows, Own(db, company, {m}) * rows, y);
    assert (z, y) in db.protects && (z, y).0 in rows && (z, y).1 in Going(db, rows, company, m);
  }

  lemma BlockedIsStuck(db: Db, company: Company, others: set<Model>, m: Model)
    requires Blocked(db, Rest(db, company, others), company, m)
    ensures Stuck(db, company, others, m)
  {
    var rows := Rest(db, company, others);
    var own := Own(db, company, {m}) * rows;
    var r :| r in db.protects && r.0 in rows && r.1 in Going(db, rows, company, m);
    CollectedIsReached(db, rows, own, r.1);
    var x, path :| x in own && Leads(db, path, x, r.1) && forall i | 0 <= i < |path| :: path[i] in rows;
    forall i | 0 <= i < |path|
      ensures !Doomed(db, company, others, path[i])
    {
      RestIsSpared(db, company, others, path[i]);
    }
    RestIsSpared(db, company, others, r.0);
    assert (r.0, path[|path| - 1]) in db.protects;
    assert CompanyRow(db, company, {m}, x) && Leads(db, path, x, path[|path| - 1]);
  }

  /** Some of the listed models, each of them stuck once all others are empty. */
  ghost predicate AllStuck(db: Db, company: Company, models: set<Model>, k: set<Model>) {
    k != {} && k <= models && forall m | m in k :: Stuck(db, company, models - k, m)
  }

  /** The deletion fails exactly when there are such models. */
  lemma FailsIffStuck(db: Db, company: Company, models: seq<Model>)
    ensures DeleteAll(db, company, models).blocked != []
            <==> exists k {:trigger AllStuck(db, company, Members(models), k)} ::
                   AllStuck(db, company, Members(models), k)
  {
    var all := Members(models);
    FailsIffHopeless(db, company, models);
    if k :| k != {} && Hopeless(db, company, all, k) {
      forall m | m in k
        ensures Stuck(db, company, all - k, m)
      {
        BlockedIsStuck(db, company, all - k, m);
      }
      assert AllStuck(db, company, all, k);
    }
    if k :| AllStuck(db, company, all, k) {
      forall m | m in k
        ensures Blocked(db, Rest(db, company, all - k), company, m)
      {
        StuckIsBlocked(db, company, all - k, m);
      }
      assert Hopeless(db, company, all, k);
    }
  }
}
