/** The collector version by version: each pass of its loop, and what the passes add up to. */
module Sweeping {
  import opened Common
  import opened Schema
  import opened Invariant
  import opened Collector

  /** The route of version `v`, if nothing but `v` keeps it. */
  ghost function LastTrace(db: Db, v: Id): set<Id> {
    if v in db.versions && !RouteHeld(db, {}, {v}, db.versions[v].routeId) then {db.versions[v].routeId} else {}
  }

  /** The rows once version `v` and its details are gone ... */
  ghost function Detached(db: Db, v: Id): Db {
    db.(versions := db.versions - {v},
        directions := db.directions - DirectionsOn(db, {v}),
        services := db.services - ServicesOn(db, {v}),
        segments := db.segments - SegmentsOn(db, {v}))
  }

  /** ... and its route too, if that was its last trace. */
  ghost function Dropped(db: Db, v: Id): Db {
    Detached(db, v).(routes := db.routes - LastTrace(db, v))
  }

  ghost predicate Droppable(db: Db, v: Id) {
    forall k | k in db.snapshots :: k.route !in LastTrace(db, v)
  }

  /** Only the version's own services and segments point at its directions. */
  ghost predicate OnlyOwn(db: Db, v: Id) {
    forall w | Points(db, w, v) :: w == v
  }

  /** `r` as a set, if no version and no membership row names it. */
  ghost function Unheld(db: Db, r: Id): set<Id> {
    if r in MemberRoutes(db.members) || exists w :: w in db.versions && db.versions[w].routeId == r then {} else {r}
  }

  lemma LastTraceIs(db: Db, v: Id)
    ensures LastTrace(db, v) == if v in db.versions then Unheld(Detached(db, v), db.versions[v].routeId) else {}
  {
    assert Remaining(db, {}) == db.members;
    assert forall w :: w in Detached(db, v).versions <==> w in db.versions && w != v;
  }

  lemma DeadRoutesGrow(db: Db, gone: set<Id>, done: set<Id>, v: Id)
    ensures DeadRoutes(db, gone, done + {v}) == DeadRoutes(db, gone, done) + LastTrace(Swept(db, gone, done), v)
  {
  }

  lemma DetailsGoOneMore(db: Db, gone: set<Id>, done: set<Id>, v: Id)
    ensures var s := Swept(db, gone, done);
      && s.directions - DirectionsOn(s, {v}) == db.directions - DirectionsOn(db, done + {v})
      && s.services - ServicesOn(s, {v}) == db.services - ServicesOn(db, done + {v})
      && s.segments - SegmentsOn(s, {v}) == db.segments - SegmentsOn(db, done + {v})
  {
  }

  /** Dropping one more version is one more step of the sweep. */
  lemma SweepOneMore(db: Db, gone: set<Id>, done: set<Id>, v: Id)
    ensures Dropped(Swept(db, gone, done), v) == Swept(db, gone, done + {v})
  {
    DeadRoutesGrow(db, gone, done, v);
    DetailsGoOneMore(db, gone, done, v);
    assert db.versions - done - {v} == db.versions - (done + {v});
    assert db.routes - DeadRoutes(db, gone, done) - LastTrace(Swept(db, gone, done), v) == db.routes - DeadRoutes(db,
      gone, done + {v});
  }

  /** Nothing swept so far: only the lists have changed. */
  lemma SweepNone(db: Db, gone: set<Id>)
    ensures Swept(db, gone, {}) == Unlisted(db, gone)
  {
  }

  /** After some versions are swept, who still points into `v`. */
  lemma SweptPoints(db: Db, gone: set<Id>, done: set<Id>, w: Id, v: Id)
    requires v !in done
    ensures Points(Swept(db, gone, done), w, v) <==> w !in done && Points(db, w, v)
  {
    var after := Swept(db, gone, done);
    forall d ensures LeadsInto(after, d, v) <==> LeadsInto(db, d, v) {
    }
    if w !in done && Points(db, w, v) {
      if s :| s in db.services && db.services[s].versionId == w && LeadsInto(db, db.services[s].directionId, v) {
        assert s in after.services;
      } else {
        var s :| s in db.segments && db.segments[s].versionId == w
          && LeadsInto(db, Some(db.segments[s].directionId), v);
        assert s in after.segments;
      }
    }
  }

  lemma TurnsBefore(db: Db, order: seq<Id>, more: seq<Id>)
    requires FreedInTurn(db, order + more)
    ensures FreedInTurn(db, order)
  {
    forall i, w | 0 <= i < |order| && Points(db, w, order[i]) ensures w in order[..i + 1] {
      assert Points(db, w, (order + more)[i]) && (order + more)[..i + 1] == order[..i + 1];
    }
  }

  /** One more version in turn. */
  lemma TurnOfOneMore(db: Db, gone: set<Id>, order: seq<Id>, v: Id)
    requires v !in order
    ensures var done := set x | x in order;
      FreedInTurn(db, order + [v]) <==> FreedInTurn(db, order) && OnlyOwn(Swept(db, gone, done), v)
  {
    var done, more := (set x | x in order), order + [v];
    forall i | 0 <= i < |order| ensures more[..i + 1] == order[..i + 1] && more[i] == order[i] {
    }
    assert more[..|order| + 1] == more;
    forall w ensures Points(Swept(db, gone, done), w, v) <==> w !in done && Points(db, w, v) {
      SweptPoints(db, gone, done, w, v);
    }
    if FreedInTurn(db, more) {
      TurnsBefore(db, order, [v]);
      forall w | Points(db, w, v) ensures w in more {
        assert Points(db, w, more[|order|]);
      }
    }
  }

  lemma OrdersJoin(a: seq<Id>, b: seq<Id>, x: set<Id>, y: set<Id>)
    requires IsOrder(a, x) && IsOrder(b, y) && x !! y
    ensures IsOrder(a + b, x + y)
  {
    forall i, j | 0 <= i < j < |a + b| ensures (a + b)[i] != (a + b)[j] {
      if j < |a| {
        assert a[i] != a[j];
      } else if i < |a| {
        assert a[i] in a && b[j - |a|] in b;
      } else {
        assert b[i - |a|] != b[j - |a|];
      }
    }
    forall id ensures id in a + b <==> id in x + y {
      assert id in a + b <==> id in a || id in b;
    }
  }

  /** Some order of a finite set. */
  lemma {:induction false} SomeOrder(ids: set<Id>) returns (order: seq<Id>)
    ensures IsOrder(order, ids)
  {
    if ids == {} {
      order := [];
    } else {
      assert (forall id :: id !in ids) ==> ids == {};
      var id :| id in ids;
      var rest := SomeOrder(ids - {id});
      OrdersJoin([id], rest, {id}, ids - {id});
      assert {id} + (ids - {id}) == ids;
      order := [id] + rest;
    }
  }

  /** A route that dies when some of the versions go dies when more of them go. */
  lemma DeadRoutesMonotone(db: Db, gone: set<Id>, some: set<Id>, more: set<Id>)
    requires some <= more
    ensures DeadRoutes(db, gone, some) <= DeadRoutes(db, gone, more)
  {
  }

  /** No remaining snapshot names a route that dies with the versions `dead`. */
  ghost predicate Clean(db: Db, gone: set<Id>, dead: set<Id>) {
    forall k | k in db.snapshots && k.generation !in gone :: k.route !in DeadRoutes(db, gone, dead)
  }

  /** One pass of the collector's loop over a doomed version. */
  lemma SweepPass(db: Db, gone: set<Id>, done: set<Id>, v: Id)
    requires Clean(db, gone, done) && done + {v} <= Doomed(db, gone)
    ensures Dropped(Swept(db, gone, done), v) == Swept(db, gone, done + {v})
    ensures Droppable(Swept(db, gone, done), v) <==> Clean(db, gone, done + {v})
    ensures SparesSnapshots(db, gone) ==> Clean(db, gone, done + {v})
  {
    SweepOneMore(db, gone, done, v);
    DeadRoutesGrow(db, gone, done, v);
    DeadRoutesMonotone(db, gone, done + {v}, Doomed(db, gone));
  }

  /** The version ids the collector lists before it deletes the membership rows. */
  lemma ListedVersions(db: Db, g: Id)
    ensures Doomed(db, {g}) == MemberVersions(MembersOf(db, g)) - MemberVersions(Remaining(db, {g}))
  {
  }

  /** The order once `v` had its turn, completed in some way when that failed. */
  lemma TakenInTurn(db: Db, g: Id, order: seq<Id>, done: set<Id>, v: Id, ok: bool) returns (more: seq<Id>)
    requires IsOrder(order, done) && FreedInTurn(db, order) && Clean(db, {g}, done)
    requires v !in done && done + {v} <= Doomed(db, {g})
    requires ok <==> OnlyOwn(Swept(db, {g}, done), v) && Droppable(Swept(db, {g}, done), v)
    ensures Dropped(Swept(db, {g}, done), v) == Swept(db, {g}, done + {v})
    ensures ok ==> IsOrder(more, done + {v}) && FreedInTurn(db, more) && Clean(db, {g}, done + {v})
    ensures !ok ==> IsOrder(more, Doomed(db, {g})) && !Deletable(db, {g}, more)
  {
    SweepPass(db, {g}, done, v);
    TurnOfOneMore(db, {g}, order, v);
    assert (set x | x in order) == done && v !in order;
    more := order + [v];
    OrdersJoin(order, [v], done, {v});
    if !ok {
      var left := Doomed(db, {g}) - (done + {v});
      var rest := SomeOrder(left);
      OrdersJoin(more, rest, done + {v}, left);
      assert done + {v} + left == Doomed(db, {g});
      if FreedInTurn(db, more + rest) {
        TurnsBefore(db, more, rest);
      }
      more := more + rest;
    }
  }

  /** Once a version's own rows are gone, its directions can go exactly when only those led into it. */
  lemma OwnRowsGone(db: Db, services: map<Id, Service>, segments: map<Id, Segment>, v: Id)
    requires services == db.services - ServicesOn(db, {v}) && segments == db.segments - SegmentsOn(db, {v})
    ensures OnlyOwn(db, v) <==> forall d | d in db.directions && db.directions[d].info.versionId == v ::
      && (forall s | s in services :: services[s].directionId != Some(d))
      && (forall s | s in segments :: segments[s].directionId != d)
  {
    if OnlyOwn(db, v) {
      forall s | s in services ensures !LeadsInto(db, services[s].directionId, v) {
        var w := services[s].versionId;
        assert LeadsInto(db, services[s].directionId, v) ==> Points(db, w, v);
      }
      forall s | s in segments ensures !LeadsInto(db, Some(segments[s].directionId), v) {
        var w := segments[s].versionId;
        assert LeadsInto(db, Some(segments[s].directionId), v) ==> Points(db, w, v);
      }
    } else {
      var w :| Points(db, w, v) && w != v;
      if s :| s in db.services && db.services[s].versionId == w && LeadsInto(db, db.services[s].directionId, v) {
        var d := db.services[s].directionId.value;
        assert s in services && services[s].directionId == Some(d) && d in db.directions;
        assert !forall t | t in services :: services[t].directionId != Some(d);
      } else {
        var s :| s in db.segments && db.segments[s].versionId == w
          && LeadsInto(db, Some(db.segments[s].directionId), v);
        var d := db.segments[s].directionId;
        assert s in segments && segments[s].directionId == d && d in db.directions;
        assert !forall t | t in segments :: segments[t].directionId != d;
      }
    }
  }
}
