/**
 Deleting all rows of a company, model by model, in an arbitrary order of the models: a delete takes the
 rows that cascade from it along, and is refused as a whole while any row protects one of them.
 */
module CompanyDeletion {
  import opened Wrappers

  type RowId = nat
  type Model = nat
  type Company = int

  datatype Record = Record(model: Model, company: Option<Company>)

  /** All rows, and the references between them as (referring, referred): deletes cascade along the first kind and are
      refused for the second. */
  datatype Db = Db(table: map<RowId, Record>, cascades: set<(RowId, RowId)>, protects: set<(RowId, RowId)>)

  function Own(db: Db, company: Company, models: set<Model>): set<RowId> {
    set r | r in db.table && db.table[r].company == Some(company) && db.table[r].model in models
  }

  /** The rows that go when some go: whatever refers to a collected row by a cascading reference is collected too. */
  function Collect(rows: set<RowId>, cascades: set<(RowId, RowId)>, some: set<RowId>): set<RowId>
    decreases rows - some
  {
    var more := set r | r in cascades && r.0 in rows && r.0 !in some && r.1 in some :: r.0;
    if more == {} then some
    else
      assert exists r :: r in more;
      Collect(rows, cascades, some + more)
  }

  predicate Guarded(db: Db, rows: set<RowId>, going: set<RowId>) {
    exists r {:trigger r in db.protects} :: r in db.protects && r.0 in rows && r.1 in going
  }

  function Going(db: Db, rows: set<RowId>, company: Company, m: Model): set<RowId> {
    Collect(rows, db.cascades, Own(db, company, {m}) * rows)
  }

  predicate Blocked(db: Db, rows: set<RowId>, company: Company, m: Model) {
    Guarded(db, rows, Going(db, rows, company, m))
  }

  /** What is left, which models were refused, and how many rows went. */
  datatype Progress = Progress(rows: set<RowId>, blocked: seq<Model>, deleted: nat)

  /** One pass over the models; models that are refused are kept for the next pass. */
  function Pass(db: Db, company: Company, models: seq<Model>, so: Progress): Progress
    decreases |models|
  {
    if models == [] then so
    else
      Pass(db, company, models[1..], Try(db, company, models[0], so))
  }

  /** Passes until none is refused, or the attempts are used up: then blocked says which models could not be emptied. */
  function Passes(db: Db, company: Company, so: Progress, attempts: nat): Progress
    decreases attempts
  {
    if attempts == 0 then so
    else
      var next := Pass(db, company, so.blocked, so.(blocked := []));
      if next.blocked == [] then next else Passes(db, company, next, attempts - 1)
  }

  /** Nothing deleted, and every model to be tried. */
  function Start(db: Db, models: seq<Model>): Progress {
    Progress(db.table.Keys, models, 0)
  }

  function DeleteAll(db: Db, company: Company, models: seq<Model>): Progress {
    Passes(db, company, Start(db, models), |models| + 1)
  }

  /** What one model does to the progress. */
  function Try(db: Db, company: Company, m: Model, so: Progress): Progress {
    if Blocked(db, so.rows, company, m) then so.(blocked := so.blocked + [m])
    else
      var going := Going(db, so.rows, company, m);
      so.(rows := so.rows - going, deleted := so.deleted + |going|)
  }

  lemma PassNext(db: Db, company: Company, models: seq<Model>, i: nat, so: Progress)
    requires i < |models|
    ensures Pass(db, company, models[i..], so) == Pass(db, company, models[i + 1..], Try(db, company, models[i], so))
  {
    assert models[i..][1..] == models[i + 1..];
  }

  /** One model in its own transaction: all its rows go, with what cascades, or none does. */
  method DeleteModel(db: Db, company: Company, m: Model, rows: set<RowId>, total: nat)
    returns (refused: bool, left: set<RowId>, deleted: nat)
    ensures forall blocked :: Try(db, company, m, Progress(rows, blocked, total))
                              == Progress(left, if refused then blocked + [m] else blocked, deleted)
  {
    var going := Going(db, rows, company, m);
    refused := Guarded(db, rows, going);
    left, deleted := rows, total;
    if !refused {
      left, deleted := rows - going, total + |going|;
    }
  }

  /** One pass: every model in its own transaction, the refused ones collected. */
  method OnePass(db: Db, company: Company, models: seq<Model>, rows: set<RowId>, total: nat)
    returns (left: set<RowId>, blocked: seq<Model>, deleted: nat)
    ensures Progress(left, blocked, deleted) == Pass(db, company, models, Progress(rows, [], total))
  {
    left, blocked, deleted := rows, [], total;
    ghost var spec := Pass(db, company, models, Progress(rows, [], total));
    assert models[0..] == models;
    for i := 0 to |models|
      invariant spec == Pass(db, company, models[i..], Progress(left, blocked, deleted))
    {
      PassNext(db, company, models, i, Progress(left, blocked, deleted));
      var refused;
      refused, left, deleted := DeleteModel(db, company, models[i], left, deleted);
      if refused {
        blocked := blocked + [models[i]];
      }
    }
    assert models[|models|..] == [];
  }

  lemma PassesNext(db: Db, company: Company, so: Progress, next: Progress, attempts: nat)
    requires attempts > 0 && next == Pass(db, company, so.blocked, so.(blocked := []))
    ensures Passes(db, company, so, attempts)
            == if next.blocked == [] then next else Passes(db, company, next, attempts - 1)
  {
  }

  /** Deletes every row of the company, in as many passes as it takes; None stands for the error. */
  method DeleteCompanyRows(db: Db, company: Company, models: seq<Model>)
    returns (deleted: Option<nat>, left: set<RowId>)
    ensures var end := DeleteAll(db, company, models);
            left == end.rows && deleted == if end.blocked == [] then Some(end.deleted) else None
  {
    left := db.table.Keys;
    var remaining, total: nat := models, 0;
    ghost var spec := DeleteAll(db, company, models);
    for attempt := 0 to |models| + 1
      invariant spec == Passes(db, company, Progress(left, remaining, total), |models| + 1 - attempt)
      invariant attempt > 0 ==> remaining != []
    {
      ghost var before := Progress(left, remaining, total);
      var blocked;
      left, blocked, total := OnePass(db, company, remaining, left, total);
      PassesNext(db, company, before, Progress(left, blocked, total), |models| + 1 - attempt);
      if blocked == [] {
        return Some(total), left;
      }
      remaining := blocked;
    }
    deleted := None;
  }

  // ---------- collecting ----------

  /** Nothing outside refers into z by a cascading reference. */
  predicate Closed(rows: set<RowId>, cascades: set<(RowId, RowId)>, z: set<RowId>) {
    forall r {:trigger r in cascades} :: r in cascades && r.0 in rows && r.1 in z ==> r.0 in z
  }

  /** Collect finds the smallest closed set. */
  lemma {:induction false} CollectIsClosed(rows: set<RowId>, cascades: set<(RowId, RowId)>, some: set<RowId>)
    ensures some <= Collect(rows, cascades, some) <= some + rows
    ensures Closed(rows, cascades, Collect(rows, cascades, some))
    decreases rows - some
  {
    var more := set r | r in cascades && r.0 in rows && r.0 !in some && r.1 in some :: r.0;
    if more == {} {
      forall r | r in cascades && r.0 in rows && r.1 in some
        ensures r.0 in some
      {
        assert r.0 !in some ==> r.0 in more;
      }
    } else {
      assert exists r :: r in more;
      CollectIsClosed(rows, cascades, some + more);
    }
  }

  lemma {:induction false} CollectIsSmallest(rows: set<RowId>, cascades: set<(RowId, RowId)>, some: set<RowId>,
                                             z: set<RowId>)
    requires some <= z && Closed(rows, cascades, z)
    ensures Collect(rows, cascades, some) <= z
    decreases rows - some
  {
    var more := set r | r in cascades && r.0 in rows && r.0 !in some && r.1 in some :: r.0;
    if more != {} {
      assert exists r :: r in more;
      CollectIsSmallest(rows, cascades, some + more, z);
    }
  }

  lemma CollectGrows(rows: set<RowId>, larger: set<RowId>, cascades: set<(RowId, RowId)>, some: set<RowId>,
                     more: set<RowId>)
    requires rows <= larger && some <= more
    ensures Collect(rows, cascades, some) <= Collect(larger, cascades, more)
  {
    CollectIsClosed(larger, cascades, more);
    CollectIsSmallest(rows, cascades, some, Collect(larger, cascades, more));
  }

  /** Deleting first one set and then another deletes what both cascade to. */
  lemma CollectInSteps(rows: set<RowId>, cascades: set<(RowId, RowId)>, first: set<RowId>, second: set<RowId>)
    requires first <= rows && second <= rows
    ensures var gone := Collect(rows, cascades, first);
            gone + Collect(rows - gone, cascades, second * (rows - gone)) == Collect(rows, cascades, first + second)
  {
    var gone := Collect(rows, cascades, first);
    var rest := Collect(rows - gone, cascades, second * (rows - gone));
    CollectIsClosed(rows, cascades, first);
    CollectIsClosed(rows - gone, cascades, second * (rows - gone));
    CollectIsClosed(rows, cascades, first + second);
    CollectGrows(rows, rows, cascades, first, first + second);
    CollectGrows(rows - gone, rows, cascades, second * (rows - gone), first + second);
    CollectIsSmallest(rows, cascades, first + second, gone + rest);
  }

  /** Whatever goes with a set goes with one of its members. */
  lemma CollectPoint(rows: set<RowId>, cascades: set<(RowId, RowId)>, some: set<RowId>, t: RowId) returns (s: RowId)
    requires t in Collect(rows, cascades, some)
    ensures s in some && t in Collect(rows, cascades, {s})
  {
    var z := set s, x | s in some && x in Collect(rows, cascades, {s}) :: x;
    forall x | x in some
      ensures x in z
    {
      CollectIsClosed(rows, cascades, {x});
      assert x in Collect(rows, cascades, {x});
    }
    forall r | r in cascades && r.0 in rows && r.1 in z
      ensures r.0 in z
    {
      var x :| x in some && r.1 in Collect(rows, cascades, {x});
      CollectIsClosed(rows, cascades, {x});
      assert r.0 in Collect(rows, cascades, {x});
    }
    CollectIsSmallest(rows, cascades, some, z);
    s :| s in some && t in Collect(rows, cascades, {s});
  }

  // ---------- what the passes do ----------

  function Members(models: seq<Model>): set<Model> {
    set m | m in models
  }

  /** What is left once the company's rows of some models are gone, with all that cascades. */
  function Rest(db: Db, company: Company, gone: set<Model>): set<RowId> {
    db.table.Keys - Collect(db.table.Keys, db.cascades, Own(db, company, gone))
  }

  /** Models that stay refused even after all others are emptied. */
  predicate Hopeless(db: Db, company: Company, models: set<Model>, k: set<Model>) {
    && k <= models
    && forall m {:trigger Blocked(db, Rest(db, company, models - k), company, m)} | m in k ::
         Blocked(db, Rest(db, company, models - k), company, m)
  }

  lemma OwnUnion(db: Db, company: Company, a: set<Model>, b: set<Model>)
    ensures Own(db, company, a + b) == Own(db, company, a) + Own(db, company, b)
  {
  }

  lemma RestNext(db: Db, company: Company, gone: set<Model>, m: Model)
    ensures var rows := Rest(db, company, gone);
            var going := Going(db, rows, company, m);
            going <= rows && rows - going == Rest(db, company, gone + {m})
  {
    var all, rows := db.table.Keys, Rest(db, company, gone);
    CollectIsClosed(rows, db.cascades, Own(db, company, {m}) * rows);
    CollectIsClosed(all, db.cascades, Own(db, company, gone));
    CollectInSteps(all, db.cascades, Own(db, company, gone), Own(db, company, {m}));
    OwnUnion(db, company, gone, {m});
  }

  lemma RestShrinks(db: Db, company: Company, a: set<Model>, b: set<Model>)
    requires a <= b
    ensures Rest(db, company, b) <= Rest(db, company, a)
  {
    CollectGrows(db.table.Keys, db.table.Keys, db.cascades, Own(db, company, a), Own(db, company, b));
  }

  /** A model that is refused late would have been refused early. */
  lemma BlockedEarlier(db: Db, company: Company, a: set<Model>, b: set<Model>, m: Model)
    requires a <= b && Blocked(db, Rest(db, company, b), company, m)
    ensures Blocked(db, Rest(db, company, a), company, m)
  {
    RestShrinks(db, company, a, b);
    var early, late := Rest(db, company, a), Rest(db, company, b);
    CollectGrows(late, early, db.cascades, Own(db, company, {m}) * late, Own(db, company, {m}) * early);
    var r :| r in db.protects && r.0 in late && r.1 in Going(db, late, company, m);
    assert r.0 in early && r.1 in Going(db, early, company, m);
  }

  /** An emptied model is refused nothing. */
  lemma EmptyIsFree(db: Db, company: Company, gone: set<Model>, m: Model)
    requires m in gone
    ensures !Blocked(db, Rest(db, company, gone), company, m)
  {
    CollectIsClosed(db.table.Keys, db.cascades, Own(db, company, gone));
    var rows := Rest(db, company, gone);
    assert Own(db, company, {m}) <= Own(db, company, gone);
    assert Own(db, company, {m}) * rows == {};
    CollectIsSmallest(rows, db.cascades, {}, {});
  }

  lemma TryRefused(db: Db, company: Company, m: Model, so: Progress)
    requires Blocked(db, so.rows, company, m)
    ensures Try(db, company, m, so) == so.(blocked := so.blocked + [m])
  {
  }

  lemma TryEmptied(db: Db, company: Company, m: Model, so: Progress, gone: set<Model>)
    requires !Blocked(db, so.rows, company, m) && so.rows == Rest(db, company, gone)
    ensures var next := Try(db, company, m, so);
            next.rows == Rest(db, company, gone + {m}) && next.blocked == so.blocked
  {
    RestNext(db, company, gone, m);
  }

  /** What happens to a model list in one pass: some are emptied, the others refused. */
  ghost predicate PassOk(db: Db, company: Company, todo: seq<Model>, so: Progress, next: Progress, gone: set<Model>,
                         more: set<Model>) {
    && next.rows == Rest(db, company, more) && gone <= more
    && (forall m | m in more :: m in gone || m in todo)
    && (forall m | m in todo :: m in more || m in next.blocked)
    && (forall m | m in next.blocked :: m in so.blocked || m in todo)
    && (forall m | m in so.blocked :: m in next.blocked)
  }

  lemma PassOkEmptied(db: Db, company: Company, todo: seq<Model>, so: Progress, mid: Progress, next: Progress,
                      gone: set<Model>, more: set<Model>)
    requires todo != [] && so.rows == Rest(db, company, gone) && !Blocked(db, so.rows, company, todo[0])
    requires mid == Try(db, company, todo[0], so) && PassOk(db, company, todo[1..], mid, next, gone + {todo[0]}, more)
    ensures PassOk(db, company, todo, so, next, gone, more)
  {
    TryEmptied(db, company, todo[0], so, gone);
  }

  lemma PassOkRefused(db: Db, company: Company, todo: seq<Model>, so: Progress, mid: Progress, next: Progress,
                      gone: set<Model>, more: set<Model>)
    requires todo != [] && Blocked(db, so.rows, company, todo[0])
    requires mid == Try(db, company, todo[0], so) && PassOk(db, company, todo[1..], mid, next, gone, more)
    ensures PassOk(db, company, todo, so, next, gone, more)
  {
    TryRefused(db, company, todo[0], so);
    assert todo[0] in mid.blocked;
  }

  /** The emptied models after a pass, given those before it. */
  function Emptied(db: Db, company: Company, todo: seq<Model>, so: Progress, gone: set<Model>): set<Model>
    decreases |todo|
  {
    if todo == [] then gone
    else Emptied(db, company, todo[1..], Try(db, company, todo[0], so),
                 if Blocked(db, so.rows, company, todo[0]) then gone else gone + {todo[0]})
  }

  lemma PassUnrolled(db: Db, company: Company, todo: seq<Model>, so: Progress, gone: set<Model>)
    requires todo != []
    ensures var mid := Try(db, company, todo[0], so);
            var gone' := if Blocked(db, so.rows, company, todo[0]) then gone else gone + {todo[0]};
            && Pass(db, company, todo, so) == Pass(db, company, todo[1..], mid)
            && Emptied(db, company, todo, so, gone) == Emptied(db, company, todo[1..], mid, gone')
  {
  }

  /** A pass empties some models and refuses the others. */
  lemma {:induction false} PassExplained(db: Db, company: Company, todo: seq<Model>, so: Progress, gone: set<Model>)
    requires so.rows == Rest(db, company, gone)
    ensures PassOk(db, company, todo, so, Pass(db, company, todo, so), gone, Emptied(db, company, todo, so, gone))
    decreases |todo|, 0
  {
    if todo != [] {
      PassUnrolled(db, company, todo, so, gone);
      if Blocked(db, so.rows, company, todo[0]) {
        PassAfterRefusal(db, company, todo, so, gone);
      } else {
        PassAfterEmptying(db, company, todo, so, gone);
      }
    }
  }

  lemma {:induction false} PassAfterRefusal(db: Db, company: Company, todo: seq<Model>, so: Progress, gone: set<Model>)
    requires todo != [] && so.rows == Rest(db, company, gone) && Blocked(db, so.rows, company, todo[0])
    ensures var mid := Try(db, company, todo[0], so);
            PassOk(db, company, todo, so, Pass(db, company, todo[1..], mid), gone,
                   Emptied(db, company, todo[1..], mid, gone))
    decreases |todo| - 1, 1
  {
    var mid := Try(db, company, todo[0], so);
    TryRefused(db, company, todo[0], so);
    PassExplained(db, company, todo[1..], mid, gone);
    PassOkRefused(db, company, todo, so, mid, Pass(db, company, todo[1..], mid), gone,
                  Emptied(db, company, todo[1..], mid, gone));
  }

  lemma {:induction false} PassAfterEmptying(db: Db, company: Company, todo: seq<Model>, so: Progress, gone: set<Model>)
    requires todo != [] && so.rows == Rest(db, company, gone) && !Blocked(db, so.rows, company, todo[0])
    ensures var mid, gone' := Try(db, company, todo[0], so), gone + {todo[0]};
            PassOk(db, company, todo, so, Pass(db, company, todo[1..], mid), gone,
                   Emptied(db, company, todo[1..], mid, gone'))
    decreases |todo| - 1, 1
  {
    var mid, gone' := Try(db, company, todo[0], so), gone + {todo[0]};
    TryEmptied(db, company, todo[0], so, gone);
    PassExplained(db, company, todo[1..], mid, gone');
    PassOkEmptied(db, company, todo, so, mid, Pass(db, company, todo[1..], mid), gone,
                  Emptied(db, company, todo[1..], mid, gone'));
  }

  /** Hopeless models are not emptied. */
  lemma {:induction false} HopelessStay
    (db: Db, company: Company, todo: seq<Model>, so: Progress, gone: set<Model>, models: set<Model>, k: set<Model>)
    requires so.rows == Rest(db, company, gone) && gone <= models && Members(todo) <= models
    requires Hopeless(db, company, models, k) && gone !! k
    ensures Emptied(db, company, todo, so, gone) !! k
    decreases |todo|
  {
    if todo != [] {
      var m, mid := todo[0], Try(db, company, todo[0], so);
      assert m in Members(todo) && Members(todo[1..]) <= Members(todo);
      if Blocked(db, so.rows, company, m) {
        TryRefused(db, company, m, so);
        HopelessStay(db, company, todo[1..], mid, gone, models, k);
      } else {
        NotHopeless(db, company, gone, models, k, m);
        TryEmptied(db, company, m, so, gone);
        HopelessStay(db, company, todo[1..], mid, gone + {m}, models, k);
      }
    }
  }

  lemma NotHopeless(db: Db, company: Company, gone: set<Model>, models: set<Model>, k: set<Model>, m: Model)
    requires Hopeless(db, company, models, k) && gone <= models && gone !! k
             && !Blocked(db, Rest(db, company, gone), company, m)
    ensures m !in k
  {
    if m in k {
      BlockedEarlier(db, company, gone, models - k, m);
    }
  }

  /** The list of refused models gets no longer, and is as long as before only if nothing was emptied. */
  lemma {:induction false} PassShrinks(db: Db, company: Company, todo: seq<Model>, so: Progress)
    ensures var next := Pass(db, company, todo, so);
            && |next.blocked| <= |so.blocked| + |todo|
            && (|next.blocked| == |so.blocked| + |todo| ==>
                next == so.(blocked := so.blocked + todo) && forall m | m in todo :: Blocked(db, so.rows, company, m))
    decreases |todo|
  {
    if todo == [] {
      assert so.blocked + todo == so.blocked;
    } else {
      PassShrinks(db, company, todo[1..], Try(db, company, todo[0], so));
      assert so.blocked + [todo[0]] + todo[1..] == so.blocked + todo;
      assert todo == [todo[0]] + todo[1..];
    }
  }

  /** When every model is refused, nothing happens any more. */
  lemma {:induction false} PassRefusesAll(db: Db, company: Company, todo: seq<Model>, so: Progress)
    requires forall m | m in todo :: Blocked(db, so.rows, company, m)
    ensures Pass(db, company, todo, so) == so.(blocked := so.blocked + todo)
    decreases |todo|
  {
    if todo == [] {
      assert so.blocked + todo == so.blocked;
    } else {
      PassRefusesAll(db, company, todo[1..], Try(db, company, todo[0], so));
      assert so.blocked + [todo[0]] + todo[1..] == so.blocked + todo;
    }
  }

  lemma {:induction false} PassesRefuseAll(db: Db, company: Company, so: Progress, attempts: nat)
    requires so.blocked != [] && forall m | m in so.blocked :: Blocked(db, so.rows, company, m)
    ensures Passes(db, company, so, attempts) == so
    decreases attempts
  {
    if attempts > 0 {
      PassRefusesAll(db, company, so.blocked, so.(blocked := []));
      assert [] + so.blocked == so.blocked;
      PassesRefuseAll(db, company, so, attempts - 1);
    }
  }

  /** Where the deletion stands: these models are gone, and all others still listed. */
  predicate Standing(db: Db, company: Company, models: set<Model>, so: Progress, gone: set<Model>) {
    && so.rows == Rest(db, company, gone) && gone <= models
    && Members(so.blocked) <= models && models <= gone + Members(so.blocked)
  }

  predicate AllRefused(db: Db, company: Company, so: Progress) {
    forall m | m in so.blocked :: Blocked(db, so.rows, company, m)
  }

  /** How far the deletion has come since it stood at so: every row that is gone has been counted. */
  predicate Later(so: Progress, end: Progress) {
    end.rows <= so.rows && end.deleted + |end.rows| == so.deleted + |so.rows|
  }

  /** The emptied models after all passes. */
  function EmptiedAll(db: Db, company: Company, so: Progress, attempts: nat, gone: set<Model>): set<Model>
    decreases attempts
  {
    if attempts == 0 then gone
    else
      var bare := so.(blocked := []);
      var next, more := Pass(db, company, so.blocked, bare), Emptied(db, company, so.blocked, bare, gone);
      if next.blocked == [] then more else EmptiedAll(db, company, next, attempts - 1, more)
  }

  lemma PassStands(db: Db, company: Company, models: set<Model>, so: Progress, gone: set<Model>)
    requires Standing(db, company, models, so, gone)
    ensures var bare := so.(blocked := []);
            var next, more := Pass(db, company, so.blocked, bare), Emptied(db, company, so.blocked, bare, gone);
            Standing(db, company, models, next, more)
  {
    PassExplained(db, company, so.blocked, so.(blocked := []), gone);
  }

  /** One pass over the listed models. */
  function NextPass(db: Db, company: Company, so: Progress): Progress {
    Pass(db, company, so.blocked, so.(blocked := []))
  }

  function NextGone(db: Db, company: Company, so: Progress, gone: set<Model>): set<Model> {
    Emptied(db, company, so.blocked, so.(blocked := []), gone)
  }

  /** Whatever every pass keeps holds in the end. */
  lemma {:induction false} PassesKeep
    (db: Db, company: Company, so: Progress, attempts: nat, gone: set<Model>, inv: (Progress, set<Model>) -> bool)
    requires inv(so, gone)
    requires forall s, g {:trigger NextGone(db, company, s, g)} | inv(s, g) ::
               inv(NextPass(db, company, s), NextGone(db, company, s, g))
    ensures inv(Passes(db, company, so, attempts), EmptiedAll(db, company, so, attempts, gone))
    decreases attempts
  {
    if attempts > 0 {
      var next, more := NextPass(db, company, so), NextGone(db, company, so, gone);
      if next.blocked != [] {
        PassesKeep(db, company, next, attempts - 1, more, inv);
      }
    }
  }

  /** After any number of passes the deletion stands somewhere further on. */
  lemma PassesStand(db: Db, company: Company, models: set<Model>, so: Progress, attempts: nat, gone: set<Model>)
    requires Standing(db, company, models, so, gone)
    ensures Standing(db, company, models, Passes(db, company, so, attempts),
                     EmptiedAll(db, company, so, attempts, gone))
  {
    var inv := (s, g) => Standing(db, company, models, s, g);
    forall s, g | inv(s, g)
      ensures inv(NextPass(db, company, s), NextGone(db, company, s, g))
    {
      PassStands(db, company, models, s, g);
    }
    PassesKeep(db, company, so, attempts, gone, inv);
  }

  lemma {:induction false} PassCounts(db: Db, company: Company, todo: seq<Model>, so: Progress)
    ensures Later(so, Pass(db, company, todo, so))
    decreases |todo|
  {
    if todo != [] {
      var going := Going(db, so.rows, company, todo[0]);
      CollectIsClosed(so.rows, db.cascades, Own(db, company, {todo[0]}) * so.rows);
      assert so.rows == (so.rows - going) + going;
      PassCounts(db, company, todo[1..], Try(db, company, todo[0], so));
    }
  }

  lemma {:induction false} PassesCount(db: Db, company: Company, so: Progress, attempts: nat)
    ensures Later(so, Passes(db, company, so, attempts))
    decreases attempts
  {
    if attempts > 0 {
      var next := Pass(db, company, so.blocked, so.(blocked := []));
      PassCounts(db, company, so.blocked, so.(blocked := []));
      PassesNext(db, company, so, next, attempts);
      if next.blocked != [] {
        PassesCount(db, company, next, attempts - 1);
      }
    }
  }

  /** Where the deletion stands, none of some models having been emptied. */
  predicate StandingWithout(db: Db, company: Company, models: set<Model>, so: Progress, gone: set<Model>,
                            k: set<Model>) {
    Standing(db, company, models, so, gone) && Hopeless(db, company, models, k) && gone !! k
  }

  lemma HopelessPass(db: Db, company: Company, models: set<Model>, so: Progress, gone: set<Model>, k: set<Model>,
                     next: Progress, more: set<Model>)
    requires StandingWithout(db, company, models, so, gone, k)
    requires next == Pass(db, company, so.blocked, so.(blocked := []))
    requires more == Emptied(db, company, so.blocked, so.(blocked := []), gone)
    ensures StandingWithout(db, company, models, next, more, k)
  {
    PassStands(db, company, models, so, gone);
    HopelessStay(db, company, so.blocked, so.(blocked := []), gone, models, k);
  }

  /** Hopeless models are never emptied. */
  lemma HopelessStayAll
    (db: Db, company: Company, models: set<Model>, so: Progress, attempts: nat, gone: set<Model>, k: set<Model>)
    requires StandingWithout(db, company, models, so, gone, k)
    ensures EmptiedAll(db, company, so, attempts, gone) !! k
  {
    var inv := (s, g) => StandingWithout(db, company, models, s, g, k);
    forall s, g | inv(s, g)
      ensures inv(NextPass(db, company, s), NextGone(db, company, s, g))
    {
      HopelessPass(db, company, models, s, g, k, NextPass(db, company, s), NextGone(db, company, s, g));
    }
    PassesKeep(db, company, so, attempts, gone, inv);
  }

  /** With as many passes as models, what remains listed at the end is refused by what is left. */
  lemma {:induction false} EndRefuses(db: Db, company: Company, so: Progress, attempts: nat)
    requires attempts > 0 && attempts >= |so.blocked|
    ensures AllRefused(db, company, Passes(db, company, so, attempts))
    decreases attempts
  {
    var next := Pass(db, company, so.blocked, so.(blocked := []));
    PassShrinks(db, company, so.blocked, so.(blocked := []));
    PassesNext(db, company, so, next, attempts);
    if next.blocked != [] {
      if |next.blocked| == |so.blocked| {
        Stable(db, company, so, next, attempts);
      } else {
        EndRefuses(db, company, next, attempts - 1);
      }
    }
  }

  /** A pass that refuses every model is the last one that does anything. */
  lemma Stable(db: Db, company: Company, so: Progress, next: Progress, attempts: nat)
    requires attempts > 0 && so.blocked != [] && next == Pass(db, company, so.blocked, so.(blocked := []))
    requires |next.blocked| == |so.blocked|
    ensures next == so && Passes(db, company, so, attempts) == next && AllRefused(db, company, next)
  {
    PassShrinks(db, company, so.blocked, so.(blocked := []));
    assert [] + so.blocked == so.blocked;
    PassesRefuseAll(db, company, so, attempts);
  }

  // ---------- the main results ----------

  lemma StartIsRest(db: Db, company: Company)
    ensures Rest(db, company, {}) == db.table.Keys
  {
    assert Own(db, company, {}) == {};
    CollectIsSmallest(db.table.Keys, db.cascades, {}, {});
  }

  /** The models whose rows are all gone in the end. */
  function GoneModels(db: Db, company: Company, models: seq<Model>): set<Model> {
    EmptiedAll(db, company, Start(db, models), |models| + 1, {})
  }

  lemma DeletionExplained(db: Db, company: Company, models: seq<Model>)
    ensures var start, end := Start(db, models), DeleteAll(db, company, models);
            && Standing(db, company, Members(models), end, GoneModels(db, company, models))
            && Later(start, end) && AllRefused(db, company, end)
  {
    var start := Start(db, models);
    StartIsRest(db, company);
    PassesStand(db, company, Members(models), start, |models| + 1, {});
    PassesCount(db, company, start, |models| + 1);
    EndRefuses(db, company, start, |models| + 1);
  }

  /** Success deletes exactly the company's rows and what cascades from them, whatever the order of the models. */
  lemma SuccessIsComplete(db: Db, company: Company, models: seq<Model>)
    requires DeleteAll(db, company, models).blocked == []
    ensures var end := DeleteAll(db, company, models);
            && end.rows == Rest(db, company, Members(models)) && end.rows !! Own(db, company, Members(models))
            && end.deleted + |end.rows| == |db.table.Keys|
  {
    DeletionExplained(db, company, models);
    assert GoneModels(db, company, models) == Members(models);
    CollectIsClosed(db.table.Keys, db.cascades, Own(db, company, Members(models)));
  }

  /** The models that an error names are refused although all others are empty. */
  lemma RemainingIsHopeless(db: Db, company: Company, models: seq<Model>) returns (k: set<Model>)
    requires DeleteAll(db, company, models).blocked != []
    ensures k == Members(DeleteAll(db, company, models).blocked) && k != {} && Hopeless(db, company, Members(models), k)
    ensures DeleteAll(db, company, models).rows == Rest(db, company, Members(models) - k)
  {
    var end := DeleteAll(db, company, models);
    var gone := GoneModels(db, company, models);
    DeletionExplained(db, company, models);
    k := Members(end.blocked);
    forall m | m in k
      ensures m !in gone
    {
      if m in gone {
        EmptyIsFree(db, company, gone, m);
      }
    }
    assert gone == Members(models) - k;
    assert end.blocked[0] in k;
  }

  /** It fails exactly when some models would stay refused even after all others were emptied; which order the models
      come in makes no difference. */
  lemma FailsIffHopeless(db: Db, company: Company, models: seq<Model>)
    ensures DeleteAll(db, company, models).blocked != []
            <==> exists k {:trigger Hopeless(db, company, Members(models), k)} ::
                   k != {} && Hopeless(db, company, Members(models), k)
  {
    if DeleteAll(db, company, models).blocked != [] {
      var k := RemainingIsHopeless(db, company, models);
    }
    if k :| k != {} && Hopeless(db, company, Members(models), k) {
      HopelessFails(db, company, models, k);
    }
  }

  lemma HopelessAreNotGone(db: Db, company: Company, models: seq<Model>, k: set<Model>)
    requires Hopeless(db, company, Members(models), k)
    ensures GoneModels(db, company, models) !! k
  {
    StartIsRest(db, company);
    HopelessStayAll(db, company, Members(models), Start(db, models), |models| + 1, {}, k);
  }

  lemma HopelessFails(db: Db, company: Company, models: seq<Model>, k: set<Model>)
    requires k != {} && Hopeless(db, company, Members(models), k)
    ensures DeleteAll(db, company, models).blocked != []
  {
    DeletionExplained(db, company, models);
    HopelessAreNotGone(db, company, models, k);
    NotGoneIsBlocked(Members(models), DeleteAll(db, company, models), GoneModels(db, company, models), k);
  }

  lemma NotGoneIsBlocked(models: set<Model>, end: Progress, gone: set<Model>, k: set<Model>)
    requires models <= gone + Members(end.blocked) && k != {} && k <= models && gone !! k
    ensures end.blocked != []
  {
    var m :| m in k;
    assert m in Members(end.blocked);
  }

  /** Two orders of the same models end alike. */
  lemma OrderDoesNotMatter(db: Db, company: Company, models: seq<Model>, shuffled: seq<Model>)
    requires Members(models) == Members(shuffled) && DeleteAll(db, company, models).blocked == []
    ensures DeleteAll(db, company, shuffled).blocked == []
    ensures DeleteAll(db, company, shuffled).rows == DeleteAll(db, company, models).rows
    ensures DeleteAll(db, company, shuffled).deleted == DeleteAll(db, company, models).deleted
  {
    FailsIffHopeless(db, company, models);
    FailsIffHopeless(db, company, shuffled);
    SuccessIsComplete(db, company, models);
    SuccessIsComplete(db, company, shuffled);
  }

  /** As many passes as there are models are enough: the extra one changes nothing. */
  lemma {:induction false} LastPassIsIdle(db: Db, company: Company, so: Progress, attempts: nat)
    requires attempts > 0 && attempts >= |so.blocked|
    ensures Passes(db, company, so, attempts + 1) == Passes(db, company, so, attempts)
    decreases attempts
  {
    var next := Pass(db, company, so.blocked, so.(blocked := []));
    PassShrinks(db, company, so.blocked, so.(blocked := []));
    PassesNext(db, company, so, next, attempts);
    PassesNext(db, company, so, next, attempts + 1);
    if next.blocked != [] {
      if |next.blocked| == |so.blocked| {
        Stable(db, company, so, next, attempts);
        Stable(db, company, so, next, attempts + 1);
      } else {
        LastPassIsIdle(db, company, next, attempts - 1);
      }
    }
  }
}
