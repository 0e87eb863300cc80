/** When deleting a company's rows cannot fail, read off the models' references. */
module DeletionOrder {
  import opened Wrappers
  import opened CompanyDeletion

  // ---------- cycles ----------

  predicate HasFree(blocks: set<(Model, Model)>, some: set<Model>) {
    exists m :: m in some && forall o | o in some :: (o, m) !in blocks
  }

  predicate HasBlocker(blocks: set<(Model, Model)>, some: set<Model>, m: Model) {
    exists o :: o in some && (o, m) in blocks
  }

  lemma NoFreeMeansAllBlocked(blocks: set<(Model, Model)>, some: set<Model>)
    requires !HasFree(blocks, some)
    ensures forall m | m in some :: HasBlocker(blocks, some, m)
  {
    forall m | m in some
      ensures HasBlocker(blocks, some, m)
    {
      assert !forall o | o in some :: (o, m) !in blocks;
    }
  }

  /** Every set of models has one that none of the set blocks. */
  ghost predicate Acyclic(blocks: set<(Model, Model)>, models: set<Model>) {
    forall some {:trigger HasFree(blocks, some)} | some <= models && some != {} :: HasFree(blocks, some)
  }

  lemma NotAcyclic(blocks: set<(Model, Model)>, models: set<Model>) returns (some: set<Model>)
    requires !Acyclic(blocks, models)
    ensures some <= models && some != {} && forall m | m in some :: HasBlocker(blocks, some, m)
  {
    some :| some <= models && some != {} && !HasFree(blocks, some);
    NoFreeMeansAllBlocked(blocks, some);
  }

  /** Each element blocks the next one, and the last the first. */
  predicate Cycle(blocks: set<(Model, Model)>, path: seq<Model>) {
    && path != [] && (path[|path| - 1], path[0]) in blocks
    && forall i :: 0 <= i < |path| - 1 ==> (path[i], path[i + 1]) in blocks
  }

  lemma {:induction false} Distinct(s: seq<Model>, within: set<Model>)
    requires forall i :: 0 <= i < |s| ==> s[i] in within
    requires forall i, j :: 0 <= i < j < |s| ==> s[i] != s[j]
    ensures |s| <= |within|
  {
    if s != [] {
      var last := s[|s| - 1];
      Distinct(s[..|s| - 1], within - {last});
      assert last in within;
    }
  }

  /** Going back along blockers for as long as one likes. */
  lemma {:induction false} Walk(blocks: set<(Model, Model)>, some: set<Model>, n: nat) returns (w: seq<Model>)
    requires some != {} && !HasFree(blocks, some)
    ensures |w| == n + 1 && forall i :: 0 <= i <= n ==> w[i] in some
    ensures forall i :: 0 <= i < n ==> (w[i + 1], w[i]) in blocks
  {
    if n == 0 {
      var m :| m in some;
      w := [m];
    } else {
      var front := Walk(blocks, some, n - 1);
      var m := front[n - 1];
      assert exists o :: o in some && (o, m) in blocks;
      var o :| o in some && (o, m) in blocks;
      w := front + [o];
    }
  }

  /** A set in which everybody is blocked by a member has a cycle. */
  lemma FindCycle(blocks: set<(Model, Model)>, some: set<Model>) returns (path: seq<Model>)
    requires some != {} && !HasFree(blocks, some)
    ensures Cycle(blocks, path) && Members(path) <= some
  {
    var w := Walk(blocks, some, |some|);
    if forall i, j :: 0 <= i < j < |w| ==> w[i] != w[j] {
      Distinct(w, some);
    }
    var i, j :| 0 <= i < j < |w| && w[i] == w[j];
    path := seq(j - i, k requires 0 <= k < j - i => w[j - k]);
    forall k | 0 <= k < |path| - 1
      ensures (path[k], path[k + 1]) in blocks
    {
      assert (w[(j - k - 1) + 1], w[j - k - 1]) in blocks;
    }
    assert (w[i + 1], w[i]) in blocks;
  }

  /** And the other way round: acyclic means that there is no cycle. */
  lemma AcyclicMeansNoCycle(blocks: set<(Model, Model)>, models: set<Model>)
    ensures Acyclic(blocks, models) <==> !exists path :: Cycle(blocks, path) && Members(path) <= models
  {
    forall path | Cycle(blocks, path) && Members(path) <= models
      ensures !HasFree(blocks, Members(path)) && Members(path) != {}
    {
      forall m | m in Members(path)
        ensures exists o :: o in Members(path) && (o, m) in blocks
      {
        var i :| 0 <= i < |path| && path[i] == m;
        var o := if i == 0 then path[|path| - 1] else path[i - 1];
        assert i > 0 ==> (path[i - 1], path[i - 1 + 1]) in blocks;
        assert o in Members(path) && (o, m) in blocks;
      }
      assert path[0] in Members(path);
    }
    forall some | some <= models && some != {} && !HasFree(blocks, some)
      ensures exists path :: Cycle(blocks, path) && Members(path) <= models
    {
      var path := FindCycle(blocks, some);
    }
  }

  // ---------- the rows at hand ----------

  /** o blocks m: a row of o protects a row that goes when m's rows go. */
  function BlocksIn(db: Db, company: Company, models: set<Model>): set<(Model, Model)> {
    set o, m | o in models && m in models
               && exists r :: r in db.protects
                              && r.0 in Own(db, company, {o}) && r.1 in Going(db, db.table.Keys, company, m)
      :: (o, m)
  }

  /** Rows that go are protected by rows of the company only. */
  predicate Inside(db: Db, company: Company, models: set<Model>) {
    forall r {:trigger r in db.protects} | r in db.protects ::
      r.0 in db.table && r.1 in Collect(db.table.Keys, db.cascades, Own(db, company, models))
      ==> r.0 in Own(db, company, models)
  }

  lemma HopelessHasNoFree(db: Db, company: Company, models: set<Model>, k: set<Model>)
    requires Inside(db, company, models) && k != {} && Hopeless(db, company, models, k)
    ensures !HasFree(BlocksIn(db, company, models), k)
  {
    var all, rows := db.table.Keys, Rest(db, company, models - k);
    CollectIsClosed(all, db.cascades, Own(db, company, models - k));
    forall m | m in k
      ensures exists o :: o in k && (o, m) in BlocksIn(db, company, models)
    {
      assert Blocked(db, Rest(db, company, models - k), company, m);
      var r :| r in db.protects && r.0 in rows && r.1 in Going(db, rows, company, m);
      CollectGrows(rows, all, db.cascades, Own(db, company, {m}) * rows, Own(db, company, {m}) * all);
      CollectGrows(all, all, db.cascades, Own(db, company, {m}) * all, Own(db, company, models));
      assert r.0 in Own(db, company, models) && r.0 !in Own(db, company, models - k);
      var o := db.table[r.0].model;
      assert r.0 in Own(db, company, {o});
      assert o in k && (o, m) in BlocksIn(db, company, models);
    }
  }

  /** If no model blocks another in a circle, the deletion succeeds. */
  lemma AcyclicSucceeds(db: Db, company: Company, models: seq<Model>)
    requires Inside(db, company, Members(models)) && Acyclic(BlocksIn(db, company, Members(models)), Members(models))
    ensures DeleteAll(db, company, models).blocked == []
  {
    FailsIffHopeless(db, company, models);
    if k :| k != {} && Hopeless(db, company, Members(models), k) {
      HopelessHasNoFree(db, company, Members(models), k);
    }
  }

  /** If it fails, the models it names contain a circle. */
  lemma FailureShowsCycle(db: Db, company: Company, models: seq<Model>) returns (path: seq<Model>)
    requires Inside(db, company, Members(models)) && DeleteAll(db, company, models).blocked != []
    ensures Cycle(BlocksIn(db, company, Members(models)), path)
    ensures Members(path) <= Members(DeleteAll(db, company, models).blocked)
  {
    var k := RemainingIsHopeless(db, company, models);
    HopelessHasNoFree(db, company, Members(models), k);
    path := FindCycle(BlocksIn(db, company, Members(models)), k);
  }

  // ---------- the models ----------

  /** The models of the database and the references between them, by kind. */
  datatype Schema = Schema(models: set<Model>, cascades: set<(Model, Model)>, protects: set<(Model, Model)>)

  predicate Conforms(db: Db, schema: Schema) {
    && (forall x | x in db.table :: db.table[x].model in schema.models)
    && (forall r | r in db.cascades ::
          r.0 in db.table && r.1 in db.table && (db.table[r.0].model, db.table[r.1].model) in schema.cascades)
    && (forall r | r in db.protects ::
          r.0 in db.table && r.1 in db.table && (db.table[r.0].model, db.table[r.1].model) in schema.protects)
  }

  /** Models whose rows may go when rows of m go. */
  function MayGo(schema: Schema, m: Model): set<Model> {
    Collect(schema.models, schema.cascades, {m})
  }

  /** Some of the models protect one that may go with m. */
  predicate MayBeBlocked(schema: Schema, some: set<Model>, m: Model) {
    exists r {:trigger r in schema.protects} :: r in schema.protects && r.0 in some && r.1 in MayGo(schema, m)
  }

  function MayBlock(schema: Schema, models: set<Model>): set<(Model, Model)> {
    set o, m | o in models && m in models && MayBeBlocked(schema, {o}, m) :: (o, m)
  }

  lemma RowsFollowModels(db: Db, schema: Schema, company: Company, m: Model, x: RowId)
    requires Conforms(db, schema) && x in Going(db, db.table.Keys, company, m)
    ensures x in db.table && db.table[x].model in MayGo(schema, m)
  {
    var z := set y | y in db.table && db.table[y].model in MayGo(schema, m);
    CollectIsClosed(schema.models, schema.cascades, {m});
    forall r | r in db.cascades && r.0 in db.table.Keys && r.1 in z
      ensures r.0 in z
    {
      var pair := (db.table[r.0].model, db.table[r.1].model);
      assert pair in schema.cascades && pair.0 in schema.models;
    }
    CollectIsSmallest(db.table.Keys, db.cascades, Own(db, company, {m}) * db.table.Keys, z);
  }

  lemma FewerBlocks(fewer: set<(Model, Model)>, more: set<(Model, Model)>, models: set<Model>)
    requires fewer <= more && Acyclic(more, models)
    ensures Acyclic(fewer, models)
  {
    forall some | some <= models && some != {}
      ensures HasFree(fewer, some)
    {
      assert HasFree(more, some);
    }
  }

  lemma SchemaSuffices(schema: Schema, db: Db, company: Company, models: seq<Model>)
    requires Conforms(db, schema) && Inside(db, company, Members(models))
    requires Acyclic(MayBlock(schema, Members(models)), Members(models))
    ensures DeleteAll(db, company, models).blocked == []
  {
    var blocks, may := BlocksIn(db, company, Members(models)), MayBlock(schema, Members(models));
    forall b | b in blocks
      ensures b in may
    {
      var (o, m) := b;
      var r :| r in db.protects && r.0 in Own(db, company, {o}) && r.1 in Going(db, db.table.Keys, company, m);
      RowsFollowModels(db, schema, company, m, r.1);
      var pair := (db.table[r.0].model, db.table[r.1].model);
      assert pair in schema.protects && pair.0 in {o} && pair.1 in MayGo(schema, m);
    }
    FewerBlocks(blocks, may, Members(models));
    AcyclicSucceeds(db, company, models);
  }

  /** One row of the company per model, with every reference set. */
  function OneEach(schema: Schema, company: Company): Db {
    Db(map m | m in schema.models :: Record(m, Some(company)), schema.cascades, schema.protects)
  }

  predicate WellFormed(schema: Schema) {
    && (forall r | r in schema.cascades :: r.0 in schema.models && r.1 in schema.models)
    && (forall r | r in schema.protects :: r.0 in schema.models && r.1 in schema.models)
  }

  lemma OwnIsModel(schema: Schema, company: Company, some: set<Model>)
    requires some <= schema.models
    ensures Own(OneEach(schema, company), company, some) == some
  {
  }

  /** What goes with m, of what is left after a closed set has gone. */
  lemma CollectOutside(rows: set<RowId>, cascades: set<(RowId, RowId)>, gone: set<RowId>, some: set<RowId>, t: RowId)
    requires some <= rows && Closed(rows, cascades, gone) && t in Collect(rows, cascades, some) && t !in gone
    ensures t in Collect(rows - gone, cascades, some * (rows - gone))
  {
    var z := Collect(rows - gone, cascades, some * (rows - gone)) + gone;
    CollectIsClosed(rows - gone, cascades, some * (rows - gone));
    CollectIsSmallest(rows, cascades, some, z);
  }

  /** Each of the models may be blocked by one of them. */
  predicate Circle(schema: Schema, circle: set<Model>) {
    circle != {} && forall m {:trigger MayBeBlocked(schema, circle, m)} | m in circle :: MayBeBlocked(schema, circle, m)
  }

  lemma AllBlockedIsCircle(schema: Schema, models: set<Model>, circle: set<Model>)
    requires circle != {} && forall m | m in circle :: HasBlocker(MayBlock(schema, models), circle, m)
    ensures Circle(schema, circle)
  {
    forall m | m in circle
      ensures MayBeBlocked(schema, circle, m)
    {
      assert HasBlocker(MayBlock(schema, models), circle, m);
      BlockedByOne(schema, models, circle, m);
    }
  }

  lemma BlockedByOne(schema: Schema, models: set<Model>, circle: set<Model>, m: Model)
    requires HasBlocker(MayBlock(schema, models), circle, m)
    ensures MayBeBlocked(schema, circle, m)
  {
    var blocks := MayBlock(schema, models);
    var o :| o in circle && (o, m) in blocks;
    assert MayBeBlocked(schema, {o}, m);
  }

  /** The models with which something may go that the circle protects. */
  function Reaching(schema: Schema, models: set<Model>, circle: set<Model>): set<Model> {
    set m | m in models && MayBeBlocked(schema, circle, m)
  }

  /** A model outside Reaching takes along neither a member of the circle nor what the circle protects. */
  lemma NotTaken(schema: Schema, models: set<Model>, circle: set<Model>, t: Model)
    requires models <= schema.models && Circle(schema, circle)
    requires t in circle
             || exists r {:trigger r in schema.protects} :: r in schema.protects && r.0 in circle && r.1 == t
    ensures t !in Collect(schema.models, schema.cascades, models - Reaching(schema, models, circle))
  {
    var others := models - Reaching(schema, models, circle);
    if t in Collect(schema.models, schema.cascades, others) {
      var n := CollectPoint(schema.models, schema.cascades, others, t);
      assert t in MayGo(schema, n);
      if t in circle {
        assert MayBeBlocked(schema, circle, t);
        CollectIsClosed(schema.models, schema.cascades, {n});
        CollectIsSmallest(schema.models, schema.cascades, {t}, MayGo(schema, n));
      }
      assert MayBeBlocked(schema, circle, n);
    }
  }

  lemma ReachingBlocked(schema: Schema, company: Company, models: set<Model>, circle: set<Model>, m: Model)
    requires models <= schema.models && Circle(schema, circle) && circle <= models
    requires m in Reaching(schema, models, circle)
    ensures var db := OneEach(schema, company);
            Blocked(db, Rest(db, company, models - Reaching(schema, models, circle)), company, m)
  {
    var db, others := OneEach(schema, company), models - Reaching(schema, models, circle);
    var rows, gone := Rest(db, company, others), Collect(schema.models, schema.cascades, others);
    assert db.table.Keys == schema.models;
    OwnIsModel(schema, company, others);
    OwnIsModel(schema, company, {m});
    var r :| r in schema.protects && r.0 in circle && r.1 in MayGo(schema, m);
    NotTaken(schema, models, circle, r.0);
    NotTaken(schema, models, circle, r.1);
    CollectIsClosed(schema.models, schema.cascades, others);
    CollectOutside(schema.models, schema.cascades, gone, {m}, r.1);
    assert r in db.protects && r.0 in rows && r.1 in Going(db, rows, company, m);
  }

  /** If models may block each other in a circle, one row of each with all references set cannot be deleted. */
  lemma SchemaNeeded(schema: Schema, company: Company, models: seq<Model>, circle: set<Model>)
    requires Members(models) <= schema.models && circle <= Members(models) && Circle(schema, circle)
    ensures DeleteAll(OneEach(schema, company), company, models).blocked != []
  {
    var db, scoped := OneEach(schema, company), Members(models);
    var k := Reaching(schema, scoped, circle);
    forall n | n in k
      ensures Blocked(db, Rest(db, company, scoped - k), company, n)
    {
      ReachingBlocked(schema, company, scoped, circle, n);
    }
    var m :| m in circle;
    assert MayBeBlocked(schema, circle, m) && m in k;
    assert Hopeless(db, company, scoped, k);
    FailsIffHopeless(db, company, models);
  }

  /** References that forbid a delete come from models the deletion covers. */
  predicate Inward(schema: Schema, models: set<Model>) {
    forall r | r in schema.protects :: r.0 in models
  }

  lemma OneEachFits(schema: Schema, company: Company, models: set<Model>)
    requires WellFormed(schema) && models <= schema.models && Inward(schema, models)
    ensures Conforms(OneEach(schema, company), schema) && Inside(OneEach(schema, company), company, models)
  {
    var db := OneEach(schema, company);
    OwnIsModel(schema, company, models);
    forall r | r in db.cascades || r in db.protects
      ensures (db.table[r.0].model, db.table[r.1].model) == r
    {
    }
  }

  /** The deletion can be relied on for all data exactly when no models may block each other in a circle. */
  lemma ReliableIffAcyclic(schema: Schema, company: Company, models: seq<Model>)
    requires WellFormed(schema) && Members(models) <= schema.models && Inward(schema, Members(models))
    ensures Acyclic(MayBlock(schema, Members(models)), Members(models))
            <==> forall db {:trigger Conforms(db, schema)}
                   | Conforms(db, schema) && Inside(db, company, Members(models)) ::
                   DeleteAll(db, company, models).blocked == []
  {
    if Acyclic(MayBlock(schema, Members(models)), Members(models)) {
      forall db | Conforms(db, schema) && Inside(db, company, Members(models))
        ensures DeleteAll(db, company, models).blocked == []
      {
        SchemaSuffices(schema, db, company, models);
      }
    } else {
      var db := OneEach(schema, company);
      OneEachFits(schema, company, Members(models));
      var circle := NotAcyclic(MayBlock(schema, Members(models)), Members(models));
      AllBlockedIsCircle(schema, Members(models), circle);
      SchemaNeeded(schema, company, models, circle);
    }
  }

  // ---------- what "PROTECT order issues resolve over a few passes" needs ----------

  /** Without cascades between the models it is enough that the protecting references have no circle. */
  lemma WithoutCascades(schema: Schema, models: set<Model>)
    requires schema.cascades == {} && Inward(schema, models)
    ensures MayBlock(schema, models) == set r | r in schema.protects && r.1 in models
  {
    forall m
      ensures MayGo(schema, m) == {m}
    {
      CollectIsSmallest(schema.models, schema.cascades, {m}, {m});
      CollectIsClosed(schema.models, schema.cascades, {m});
    }
    var direct := set r | r in schema.protects && r.1 in models;
    forall b
      ensures b in MayBlock(schema, models) <==> b in direct
    {
      assert b == (b.0, b.1);
      assert MayBeBlocked(schema, {b.0}, b.1) <==> b in schema.protects;
    }
  }

  /** With cascades it is not: here x protects z and z protects y, no circle, but rows of y go with rows of x. */
  lemma ProtectAcyclicIsNotEnough(company: Company, x: Model, y: Model, z: Model)
    requires x != y && y != z && x != z
    ensures var schema := Schema({x, y, z}, {(y, x)}, {(x, z), (z, y)});
            && Acyclic(schema.protects, schema.models)
            && DeleteAll(OneEach(schema, company), company, [x, y, z]).blocked != []
  {
    var schema := Schema({x, y, z}, {(y, x)}, {(x, z), (z, y)});
    forall some | some <= schema.models && some != {}
      ensures HasFree(schema.protects, some)
    {
      var free := if x in some then x else if z in some then z else y;
      assert free in some && forall o | o in some :: (o, free) !in schema.protects;
    }
    var circle: set<Model> := {x, z};
    CollectIsClosed(schema.models, schema.cascades, {x});
    CollectIsClosed(schema.models, schema.cascades, {z});
    assert (y, x) in schema.cascades && y in MayGo(schema, x);
    assert (z, y) in schema.protects && MayBeBlocked(schema, circle, x);
    assert (x, z) in schema.protects && MayBeBlocked(schema, circle, z);
    assert Members([x, y, z]) == schema.models;
    SchemaNeeded(schema, company, [x, y, z], circle);
  }
}
