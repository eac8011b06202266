/** Virtual resources: named counters with a capacity, held by runs. */
module Resources {
  import opened Core

  datatype Resource = Resource(id: ResourceId, capacity: nat)
  datatype Claim = Claim(resource: string, units: nat)
  datatype Hold = Hold(run: RunId, resource: ResourceId, units: nat)

  // Keyed by name, which the table keeps unique.
  type ResourceTable = map<string, Resource>

  /** `Ok(true)`, `Ok(false)`, and the error of a constraint of the holds table. */
  datatype Verdict = Acquired | Refused | Rejected

  function Used(holds: seq<Hold>, id: ResourceId): nat {
    if holds == [] then 0
    else Used(holds[..|holds| - 1], id) + UnitsOn(holds[|holds| - 1], id)
  }

  function UnitsOn(h: Hold, id: ResourceId): nat {
    if h.resource == id then h.units else 0
  }

  predicate HasHold(holds: seq<Hold>, run: RunId, id: ResourceId) {
    exists i :: 0 <= i < |holds| && holds[i].run == run && holds[i].resource == id
  }

  predicate HoldsAny(holds: seq<Hold>, run: RunId) {
    exists i :: 0 <= i < |holds| && holds[i].run == run
  }

  /** Claims are met one by one; the table refuses zero units and a second hold on one resource. */
  function Acquire(table: ResourceTable, holds: seq<Hold>, run: RunId, claims: seq<Claim>): (Verdict, seq<Hold>)
    decreases |claims|
  {
    if claims == [] then (Acquired, holds)
    else
      var c := claims[0];
      if c.resource !in table then (Refused, holds)
      else
        var r := table[c.resource];
        if Used(holds, r.id) + c.units > r.capacity then (Refused, holds)
        else if c.units == 0 || HasHold(holds, run, r.id) then (Rejected, holds)
        else Acquire(table, holds + [Hold(run, r.id, c.units)], run, claims[1..])
  }

  /** The whole acquisition is one transaction: all claims or nothing. */
  function TryAcquire(table: ResourceTable, holds: seq<Hold>, run: RunId, claims: seq<Claim>): (Verdict, seq<Hold>) {
    var (verdict, holds') := Acquire(table, holds, run, claims);
    (verdict, if verdict == Acquired then holds' else holds)
  }

  function Release(holds: seq<Hold>, run: RunId): seq<Hold> {
    if holds == [] then []
    else
      var h := holds[|holds| - 1];
      Release(holds[..|holds| - 1], run) + (if h.run == run then [] else [h])
  }

  /** `ON DELETE CASCADE`. */
  function DropResource(holds: seq<Hold>, id: ResourceId): seq<Hold> {
    if holds == [] then []
    else
      var h := holds[|holds| - 1];
      DropResource(holds[..|holds| - 1], id) + (if h.resource == id then [] else [h])
  }

  ghost predicate UniqueIds(table: ResourceTable) {
    forall m, n :: m in table && n in table && table[m].id == table[n].id ==> m == n
  }

  ghost predicate Known(table: ResourceTable, id: ResourceId) {
    exists n :: n in table && table[n].id == id
  }

  /** One hold per run and resource. */
  ghost predicate UniqueKeys(holds: seq<Hold>) {
    forall i, j :: 0 <= i < j < |holds| ==> holds[i].run != holds[j].run || holds[i].resource != holds[j].resource
  }

  /** The constraints of the two tables, and that no resource is over-committed. */
  ghost predicate Sound(table: ResourceTable, holds: seq<Hold>) {
    && UniqueIds(table)
    && (forall i :: 0 <= i < |holds| ==> holds[i].units > 0 && Known(table, holds[i].resource))
    && UniqueKeys(holds)
    && (forall n :: n in table ==> Used(holds, table[n].id) <= table[n].capacity)
  }

  // ----- Sums -----

  lemma UsedAppend(holds: seq<Hold>, h: Hold, id: ResourceId)
    ensures Used(holds + [h], id) == Used(holds, id) + UnitsOn(h, id)
  {
    assert (holds + [h])[..|holds|] == holds;
  }

  lemma {:induction false} ReleaseUsesLess(holds: seq<Hold>, run: RunId, id: ResourceId)
    ensures Used(Release(holds, run), id) <= Used(holds, id)
  {
    if holds != [] {
      var front, h := holds[..|holds| - 1], holds[|holds| - 1];
      ReleaseUsesLess(front, run, id);
      UsedAppend(Release(front, run), h, id);
      assert Release(front, run) + [] == Release(front, run);
    }
  }

  lemma {:induction false} DropUsesLess(holds: seq<Hold>, dropped: ResourceId, id: ResourceId)
    ensures Used(DropResource(holds, dropped), id) == if id == dropped then 0 else Used(holds, id)
  {
    if holds != [] {
      var front, h := holds[..|holds| - 1], holds[|holds| - 1];
      DropUsesLess(front, dropped, id);
      UsedAppend(DropResource(front, dropped), h, id);
      assert DropResource(front, dropped) + [] == DropResource(front, dropped);
    }
  }

  lemma {:induction false} NothingUsed(holds: seq<Hold>, id: ResourceId)
    requires forall i :: 0 <= i < |holds| ==> holds[i].resource != id
    ensures Used(holds, id) == 0
  {
    if holds != [] {
      NothingUsed(holds[..|holds| - 1], id);
    }
  }

  // ----- Acquisition -----

  /** What one claim needs of the holds there are. */
  predicate Satisfiable(table: ResourceTable, holds: seq<Hold>, run: RunId, c: Claim) {
    && c.resource in table && c.units > 0
    && Used(holds, table[c.resource].id) + c.units <= table[c.resource].capacity
    && !HasHold(holds, run, table[c.resource].id)
  }

  predicate DistinctNames(claims: seq<Claim>) {
    forall i, j :: 0 <= i < j < |claims| ==> claims[i].resource != claims[j].resource
  }

  /** The holds that meeting `claims` adds. */
  function HoldsFor(table: ResourceTable, run: RunId, claims: seq<Claim>): seq<Hold>
    requires forall i :: 0 <= i < |claims| ==> claims[i].resource in table
  {
    if claims == [] then []
    else [Hold(run, table[claims[0].resource].id, claims[0].units)] + HoldsFor(table, run, claims[1..])
  }

  ghost predicate AllSatisfiable(table: ResourceTable, holds: seq<Hold>, run: RunId, claims: seq<Claim>) {
    DistinctNames(claims) && forall i :: 0 <= i < |claims| ==> Satisfiable(table, holds, run, claims[i])
  }

  lemma HasHoldAppend(holds: seq<Hold>, h: Hold, run: RunId, id: ResourceId)
    ensures HasHold(holds + [h], run, id) <==> HasHold(holds, run, id) || (h.run == run && h.resource == id)
  {
    var longer := holds + [h];
    if HasHold(holds, run, id) {
      var i :| 0 <= i < |holds| && holds[i].run == run && holds[i].resource == id;
      assert longer[i] == holds[i];
    }
    assert longer[|holds|] == h;
  }

  /** A hold on one resource leaves the claims on others as they were. */
  lemma {:induction false} OtherClaimsUnmoved(table: ResourceTable, holds: seq<Hold>, run: RunId, taken: Claim,
                                        c: Claim)
    requires UniqueIds(table) && taken.resource in table
    ensures var holds' := holds + [Hold(run, table[taken.resource].id, taken.units)];
            (Satisfiable(table, holds', run, c) && c.resource != taken.resource
             <==> Satisfiable(table, holds, run, c) && c.resource != taken.resource)
    ensures var holds' := holds + [Hold(run, table[taken.resource].id, taken.units)];
            c.resource == taken.resource ==> !Satisfiable(table, holds', run, c)
  {
    hide HasHold, Used;
    if c.resource in table {
      var h := Hold(run, table[taken.resource].id, taken.units);
      UsedAppend(holds, h, table[c.resource].id);
      HasHoldAppend(holds, h, run, table[c.resource].id);
    }
  }

  lemma {:induction false} AllAfterFirst(table: ResourceTable, holds: seq<Hold>, run: RunId, claims: seq<Claim>)
    requires UniqueIds(table) && claims != [] && claims[0].resource in table
    requires Satisfiable(table, holds, run, claims[0])
    ensures var holds' := holds + [Hold(run, table[claims[0].resource].id, claims[0].units)];
            AllSatisfiable(table, holds', run, claims[1..]) <==> AllSatisfiable(table, holds, run, claims)
  {
    hide Satisfiable;
    var rest := claims[1..];
    var holds' := holds + [Hold(run, table[claims[0].resource].id, claims[0].units)];
    forall i | 0 <= i < |rest|
      ensures rest[i] == claims[i + 1]
      ensures Satisfiable(table, holds', run, rest[i]) ==> claims[i + 1].resource != claims[0].resource
      ensures claims[i + 1].resource != claims[0].resource ==>
                (Satisfiable(table, holds', run, rest[i]) <==> Satisfiable(table, holds, run, claims[i + 1]))
    {
      OtherClaimsUnmoved(table, holds, run, claims[0], rest[i]);
    }
    if AllSatisfiable(table, holds', run, rest) {
      forall i | 0 <= i < |claims|
        ensures Satisfiable(table, holds, run, claims[i])
        ensures forall j :: i < j < |claims| ==> claims[i].resource != claims[j].resource
      {
        if i > 0 {
          assert claims[i] == rest[i - 1] && Satisfiable(table, holds', run, rest[i - 1]);
        }
        forall j | i < j < |claims|
          ensures claims[i].resource != claims[j].resource
        {
          assert claims[j] == rest[j - 1] && Satisfiable(table, holds', run, rest[j - 1]);
        }
      }
    }
    if AllSatisfiable(table, holds, run, claims) {
      forall i | 0 <= i < |rest|
        ensures Satisfiable(table, holds', run, rest[i])
      {
        assert Satisfiable(table, holds, run, claims[i + 1]);
      }
    }
  }

  /**
   * Acquisition succeeds exactly when the claims name distinct resources, each
   * of which exists, is not yet held by the run and has the units to spare
   * before any is taken; it then adds exactly those holds.
   */
  lemma {:induction false} AcquiredExactly(table: ResourceTable, holds: seq<Hold>, run: RunId, claims: seq<Claim>)
    requires UniqueIds(table)
    ensures Acquire(table, holds, run, claims).0 == Acquired <==> AllSatisfiable(table, holds, run, claims)
    ensures AllSatisfiable(table, holds, run, claims) ==>
              (forall i :: 0 <= i < |claims| ==> claims[i].resource in table)
              && Acquire(table, holds, run, claims).1 == holds + HoldsFor(table, run, claims)
    decreases |claims|
  {
    hide Acquire, AllSatisfiable, Used, HasHold, UniqueIds, HoldsFor;
    if claims == [] {
      NoClaims(table, holds, run);
    } else if Satisfiable(table, holds, run, claims[0]) {
      var h := Hold(run, table[claims[0].resource].id, claims[0].units);
      AcquiredExactly(table, holds + [h], run, claims[1..]);
      AllAfterFirst(table, holds, run, claims);
      FirstMet(table, holds, run, claims);
      if AllSatisfiable(table, holds, run, claims) {
        AllKnown(table, holds, run, claims);
        HoldsForFirst(table, holds, run, claims);
      }
    } else {
      FirstUnmet(table, holds, run, claims);
    }
  }

  lemma HoldsForFirst(table: ResourceTable, holds: seq<Hold>, run: RunId, claims: seq<Claim>)
    requires claims != [] && forall i :: 0 <= i < |claims| ==> claims[i].resource in table
    ensures holds + [Hold(run, table[claims[0].resource].id, claims[0].units)] + HoldsFor(table, run, claims[1..])
         == holds + HoldsFor(table, run, claims)
  {
  }

  lemma NoClaims(table: ResourceTable, holds: seq<Hold>, run: RunId)
    ensures Acquire(table, holds, run, []) == (Acquired, holds) && AllSatisfiable(table, holds, run, [])
    ensures holds + HoldsFor(table, run, []) == holds
  {
  }

  lemma AllKnown(table: ResourceTable, holds: seq<Hold>, run: RunId, claims: seq<Claim>)
    requires AllSatisfiable(table, holds, run, claims)
    ensures forall i :: 0 <= i < |claims| ==> claims[i].resource in table
  {
    forall i | 0 <= i < |claims|
      ensures claims[i].resource in table
    {
      assert Satisfiable(table, holds, run, claims[i]);
    }
  }

  lemma FirstMet(table: ResourceTable, holds: seq<Hold>, run: RunId, claims: seq<Claim>)
    requires claims != [] && claims[0].resource in table && Satisfiable(table, holds, run, claims[0])
    ensures Acquire(table, holds, run, claims)
         == Acquire(table, holds + [Hold(run, table[claims[0].resource].id, claims[0].units)], run, claims[1..])
  {
    hide Used, HasHold;
  }

  lemma FirstUnmet(table: ResourceTable, holds: seq<Hold>, run: RunId, claims: seq<Claim>)
    requires claims != [] && !Satisfiable(table, holds, run, claims[0])
    ensures Acquire(table, holds, run, claims).0 != Acquired && !AllSatisfiable(table, holds, run, claims)
  {
    hide Used, HasHold;
  }

  /** Only a repeated name can make the table reject the claims of a new run. */
  lemma {:induction false} RejectionNeedsRepeat(table: ResourceTable, holds: seq<Hold>, run: RunId, claims: seq<Claim>)
    requires UniqueIds(table)
    requires forall i :: 0 <= i < |claims| ==> claims[i].units > 0
    requires forall i :: 0 <= i < |claims| && claims[i].resource in table ==>
               !HasHold(holds, run, table[claims[i].resource].id)
    requires DistinctNames(claims)
    ensures Acquire(table, holds, run, claims).0 != Rejected
    decreases |claims|
  {
    if claims != [] && Satisfiable(table, holds, run, claims[0]) {
      var rest := claims[1..];
      var h := Hold(run, table[claims[0].resource].id, claims[0].units);
      forall i | 0 <= i < |rest| && rest[i].resource in table
        ensures !HasHold(holds + [h], run, table[rest[i].resource].id)
      {
        assert rest[i] == claims[i + 1];
        var id := table[rest[i].resource].id;
        HasHoldAppend(holds, h, run, id);
        assert claims[0].resource != claims[i + 1].resource;
      }
      RejectionNeedsRepeat(table, holds + [h], run, rest);
    }
  }

  // ----- Preservation -----

  lemma {:induction false} AcquireKeepsSound(table: ResourceTable, holds: seq<Hold>, run: RunId, claims: seq<Claim>)
    requires Sound(table, holds)
    ensures Sound(table, Acquire(table, holds, run, claims).1)
    decreases |claims|
  {
    if claims != [] && Satisfiable(table, holds, run, claims[0]) {
      var h := Hold(run, table[claims[0].resource].id, claims[0].units);
      OneHoldKeepsSound(table, holds, h, claims[0].resource);
      AcquireKeepsSound(table, holds + [h], run, claims[1..]);
    }
  }

  lemma OneHoldKeepsSound(table: ResourceTable, holds: seq<Hold>, h: Hold, name: string)
    requires Sound(table, holds) && name in table && h.resource == table[name].id && h.units > 0
    requires Used(holds, h.resource) + h.units <= table[name].capacity && !HasHold(holds, h.run, h.resource)
    ensures Sound(table, holds + [h])
  {
    forall n | n in table
      ensures Used(holds + [h], table[n].id) <= table[n].capacity
    {
      UsedAppend(holds, h, table[n].id);
    }
  }

  lemma TryAcquireKeepsSound(table: ResourceTable, holds: seq<Hold>, run: RunId, claims: seq<Claim>)
    requires Sound(table, holds)
    ensures Sound(table, TryAcquire(table, holds, run, claims).1)
  {
    AcquireKeepsSound(table, holds, run, claims);
  }

  /** A released table is the old one without the rows of the run. */
  lemma {:induction false} ReleaseKeepsRows(holds: seq<Hold>, run: RunId)
    ensures forall h :: h in Release(holds, run) <==> h in holds && h.run != run
    ensures UniqueKeys(holds) ==> UniqueKeys(Release(holds, run))
  {
    if holds != [] {
      var front, h := holds[..|holds| - 1], holds[|holds| - 1];
      ReleaseKeepsRows(front, run);
      assert holds == front + [h];
      KeysAppend(front, Release(front, run), h);
      assert Release(front, run) + [] == Release(front, run);
    }
  }

  lemma {:induction false} DropKeepsRows(holds: seq<Hold>, id: ResourceId)
    ensures forall h :: h in DropResource(holds, id) <==> h in holds && h.resource != id
    ensures UniqueKeys(holds) ==> UniqueKeys(DropResource(holds, id))
  {
    if holds != [] {
      var front, h := holds[..|holds| - 1], holds[|holds| - 1];
      DropKeepsRows(front, id);
      assert holds == front + [h];
      KeysAppend(front, DropResource(front, id), h);
      assert DropResource(front, id) + [] == DropResource(front, id);
    }
  }

  lemma KeysAppend(front: seq<Hold>, kept: seq<Hold>, h: Hold)
    requires forall k :: k in kept ==> k in front
    ensures UniqueKeys(front + [h]) ==> UniqueKeys(front)
    ensures UniqueKeys(front + [h]) && UniqueKeys(kept) ==> UniqueKeys(kept + [h])
  {
    var all, more := front + [h], kept + [h];
    if UniqueKeys(all) {
      forall i, j | 0 <= i < j < |front|
        ensures front[i].run != front[j].run || front[i].resource != front[j].resource
      {
        assert all[i] == front[i] && all[j] == front[j];
      }
      forall i | 0 <= i < |kept|
        ensures kept[i].run != h.run || kept[i].resource != h.resource
      {
        assert kept[i] in kept;
        var a :| 0 <= a < |front| && front[a] == kept[i];
        assert all[a] == kept[i] && all[|front|] == h;
      }
    }
  }

  lemma ReleaseKeepsSound(table: ResourceTable, holds: seq<Hold>, run: RunId)
    requires Sound(table, holds)
    ensures Sound(table, Release(holds, run))
  {
    hide UniqueKeys, Known, Used;
    var holds' := Release(holds, run);
    ReleaseKeepsRows(holds, run);
    forall i | 0 <= i < |holds'|
      ensures holds'[i].units > 0 && Known(table, holds'[i].resource)
    {
      assert holds'[i] in holds';
    }
    forall n | n in table
      ensures Used(holds', table[n].id) <= table[n].capacity
    {
      ReleaseUsesLess(holds, run, table[n].id);
    }
  }

  /** Deleting a resource takes its holds along. */
  lemma DropKeepsSound(table: ResourceTable, holds: seq<Hold>, name: string)
    requires Sound(table, holds) && name in table
    ensures Sound(table - {name}, DropResource(holds, table[name].id))
  {
    hide UniqueKeys, Used;
    var id := table[name].id;
    var (table', holds') := (table - {name}, DropResource(holds, id));
    DropKeepsRows(holds, id);
    forall i | 0 <= i < |holds'|
      ensures holds'[i].units > 0 && Known(table', holds'[i].resource)
    {
      assert holds'[i] in holds';
      var n :| n in table && table[n].id == holds'[i].resource;
      assert n in table';
    }
    forall n | n in table'
      ensures Used(holds', table'[n].id) <= table'[n].capacity
    {
      DropUsesLess(holds, id, table[n].id);
    }
  }

  /** A resource with a new name and a new id. */
  lemma InsertKeepsSound(table: ResourceTable, holds: seq<Hold>, name: string, r: Resource)
    requires Sound(table, holds) && name !in table && !Known(table, r.id)
    ensures Sound(table[name := r], holds)
  {
    hide UniqueKeys, Used;
    var table' := table[name := r];
    forall i | 0 <= i < |holds|
      ensures Known(table', holds[i].resource) && holds[i].resource != r.id
    {
      assert Known(table, holds[i].resource);
      var n :| n in table && table[n].id == holds[i].resource;
      assert n in table' && table'[n].id == holds[i].resource;
    }
    NothingUsed(holds, r.id);
  }

  /** Releasing undoes acquiring, for a run that held nothing. */
  lemma {:induction false} ReleaseForgets(holds: seq<Hold>, more: seq<Hold>, run: RunId)
    requires !HoldsAny(holds, run) && forall i :: 0 <= i < |more| ==> more[i].run == run
    ensures Release(holds + more, run) == holds
  {
    if more != [] {
      var front := more[..|more| - 1];
      assert (holds + more)[..|holds + more| - 1] == holds + front;
      ReleaseForgets(holds, front, run);
    } else {
      assert holds + more == holds;
      ReleaseOfStranger(holds, run);
    }
  }

  lemma {:induction false} ReleaseOfStranger(holds: seq<Hold>, run: RunId)
    requires forall i :: 0 <= i < |holds| ==> holds[i].run != run
    ensures Release(holds, run) == holds
  {
    if holds != [] {
      var front, h := holds[..|holds| - 1], holds[|holds| - 1];
      ReleaseOfStranger(front, run);
      assert front + [h] == holds;
    }
  }

  lemma {:induction false} AcquireOnlyAdds(table: ResourceTable, holds: seq<Hold>, run: RunId, claims: seq<Claim>)
    ensures var holds' := Acquire(table, holds, run, claims).1;
            holds <= holds' && forall i :: |holds| <= i < |holds'| ==> holds'[i].run == run
    decreases |claims|
  {
    if claims != [] {
      var c := claims[0];
      if c.resource in table {
        AcquireOnlyAdds(table, holds + [Hold(run, table[c.resource].id, c.units)], run, claims[1..]);
      }
    }
  }

  /** Whatever the verdict, acquiring and then releasing leaves the holds as they were. */
  lemma AcquireThenRelease(table: ResourceTable, holds: seq<Hold>, run: RunId, claims: seq<Claim>)
    requires !HoldsAny(holds, run)
    ensures Release(TryAcquire(table, holds, run, claims).1, run) == holds
    ensures TryAcquire(table, holds, run, claims).0 != Acquired ==> TryAcquire(table, holds, run, claims).1 == holds
  {
    var holds' := TryAcquire(table, holds, run, claims).1;
    AcquireOnlyAdds(table, holds, run, claims);
    assert holds' == holds + holds'[|holds|..];
    ReleaseForgets(holds, holds'[|holds|..], run);
  }

  /** `capacity - used`, clamped at zero; `None` for a resource that is not there. */
  function AvailableUnits(table: ResourceTable, holds: seq<Hold>, name: string): Option<nat> {
    if name !in table then None
    else
      var n := table[name].capacity - Used(holds, table[name].id);
      Some(if n < 0 then 0 else n)
  }

  /** The clamp never acts, and no hold at all means everything is available. */
  lemma ClampIsIdle(table: ResourceTable, holds: seq<Hold>, name: string)
    requires Sound(table, holds) && name in table
    ensures AvailableUnits(table, holds, name).value + Used(holds, table[name].id) == table[name].capacity
    ensures holds == [] ==> AvailableUnits(table, holds, name) == Some(table[name].capacity)
  {
  }
}
