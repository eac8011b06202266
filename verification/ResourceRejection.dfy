/** Exactly when the holds table refuses a row, which the caller sees as an error and not as "no room". */
module ResourceRejection {
  import opened Core
  import opened Resources

  /** A claim that names the resource of an earlier one, although both would fit. */
  ghost predicate RepeatsAt(table: ResourceTable, holds: seq<Hold>, claims: seq<Claim>, k: nat) {
    && k < |claims|
    && claims[k].resource in table
    && exists j :: 0 <= j < k && claims[j].resource == claims[k].resource
         && Used(holds, table[claims[k].resource].id) + claims[j].units + claims[k].units
            <= table[claims[k].resource].capacity
  }

  lemma {:induction false} AcquireInTwo(table: ResourceTable, holds: seq<Hold>, run: RunId, claims: seq<Claim>, k: nat)
    requires k <= |claims|
    ensures var (verdict, holds') := Acquire(table, holds, run, claims[..k]);
            Acquire(table, holds, run, claims)
            == if verdict == Acquired then Acquire(table, holds', run, claims[k..]) else (verdict, holds')
    decreases k
  {
    if k == 0 {
      assert claims[0..] == claims;
    } else {
      var c := claims[0];
      if Satisfiable(table, holds, run, c) {
        var h := Hold(run, table[c.resource].id, c.units);
        assert claims[..k][1..] == claims[1..][..k - 1] && claims[1..][k - 1..] == claims[k..];
        AcquireInTwo(table, holds + [h], run, claims[1..], k - 1);
      }
    }
  }

  lemma {:induction false} HoldsForAt(table: ResourceTable, run: RunId, claims: seq<Claim>)
    requires forall i :: 0 <= i < |claims| ==> claims[i].resource in table
    ensures |HoldsFor(table, run, claims)| == |claims|
    ensures forall i :: 0 <= i < |claims| ==>
              HoldsFor(table, run, claims)[i] == Hold(run, table[claims[i].resource].id, claims[i].units)
  {
    if claims != [] {
      HoldsForAt(table, run, claims[1..]);
    }
  }

  lemma {:induction false} UsedOfSum(a: seq<Hold>, b: seq<Hold>, id: ResourceId)
    ensures Used(a + b, id) == Used(a, id) + Used(b, id)
  {
    if b == [] {
      assert a + b == a;
    } else {
      assert (a + b)[..|a + b| - 1] == a + b[..|b| - 1];
      UsedOfSum(a, b[..|b| - 1], id);
    }
  }

  /** Of holds on distinct resources only the one on `id` counts. */
  lemma {:induction false} UsedOfOne(holds: seq<Hold>, j: nat)
    requires j < |holds| && forall i :: 0 <= i < |holds| && i != j ==> holds[i].resource != holds[j].resource
    ensures Used(holds, holds[j].resource) == holds[j].units
  {
    if j == |holds| - 1 {
      NothingUsed(holds[..j], holds[j].resource);
    } else {
      UsedOfOne(holds[..|holds| - 1], j);
    }
  }

  /** What the holds look like once the claims before `k` are met. */
  lemma {:induction false} AfterPrefix(table: ResourceTable, holds: seq<Hold>, run: RunId, met: seq<Claim>, c: Claim,
                                       j: nat)
    requires UniqueIds(table) && AllSatisfiable(table, holds, run, met)
    requires forall i :: 0 <= i < |met| ==> met[i].resource in table
    requires j < |met| && met[j].resource == c.resource
    ensures var holds' := holds + HoldsFor(table, run, met); var id := table[c.resource].id;
            HasHold(holds', run, id) && Used(holds', id) == Used(holds, id) + met[j].units
  {
    var added, id := HoldsFor(table, run, met), table[c.resource].id;
    HoldsForAt(table, run, met);
    UsedOfSum(holds, added, id);
    assert (holds + added)[|holds| + j] == added[j];
    forall i | 0 <= i < |added| && i != j
      ensures added[i].resource != added[j].resource
    {
      assert met[i].resource != met[j].resource;
    }
    UsedOfOne(added, j);
  }

  lemma NotMetBefore(table: ResourceTable, holds: seq<Hold>, run: RunId, met: seq<Claim>, c: Claim)
    requires UniqueIds(table) && c.resource in table && !HasHold(holds, run, table[c.resource].id)
    requires forall i :: 0 <= i < |met| ==> met[i].resource in table && met[i].resource != c.resource
    ensures !HasHold(holds + HoldsFor(table, run, met), run, table[c.resource].id)
  {
    HoldsForAt(table, run, met);
  }

  ghost predicate FreshRun(table: ResourceTable, holds: seq<Hold>, run: RunId, claims: seq<Claim>) {
    && UniqueIds(table)
    && forall i :: 0 <= i < |claims| ==>
         claims[i].units > 0 && (claims[i].resource in table ==> !HasHold(holds, run, table[claims[i].resource].id))
  }

  /** One claim after a met prefix is rejected exactly when it repeats a name and still fits. */
  lemma {:induction false} StepRejected(table: ResourceTable, holds: seq<Hold>, run: RunId, claims: seq<Claim>, k: nat)
    requires FreshRun(table, holds, run, claims) && k < |claims| && AllSatisfiable(table, holds, run, claims[..k])
    requires forall i :: 0 <= i < k ==> claims[i].resource in table
    ensures (&& claims[k].resource in table
             && (var holds' := holds + HoldsFor(table, run, claims[..k]); var r := table[claims[k].resource];
                 Used(holds', r.id) + claims[k].units <= r.capacity && HasHold(holds', run, r.id)))
            <==> RepeatsAt(table, holds, claims, k)
  {
    hide Used, HasHold, HoldsFor, AllSatisfiable;
    var c, met := claims[k], claims[..k];
    forall j | 0 <= j < k && met[j].resource == c.resource
      ensures var holds' := holds + HoldsFor(table, run, met); var id := table[c.resource].id;
              HasHold(holds', run, id) && Used(holds', id) == Used(holds, id) + met[j].units
    {
      AfterPrefix(table, holds, run, met, c, j);
    }
    if c.resource in table {
      if j :| 0 <= j < k && met[j].resource == c.resource {
        assert claims[j] == met[j];
      } else {
        assert forall i :: 0 <= i < k ==> met[i].resource != c.resource;
        NotMetBefore(table, holds, run, met, c);
      }
    }
  }

  lemma {:induction false} StopsSomewhere(table: ResourceTable, holds: seq<Hold>, run: RunId, claims: seq<Claim>)
    returns (k: nat)
    requires UniqueIds(table)
    ensures k <= |claims| && Acquire(table, holds, run, claims[..k]).0 == Acquired
    ensures k < |claims| ==> !Satisfiable(table, Acquire(table, holds, run, claims[..k]).1, run, claims[k])
    decreases |claims|
  {
    if claims == [] || !Satisfiable(table, holds, run, claims[0]) {
      k := 0;
    } else {
      var h := Hold(run, table[claims[0].resource].id, claims[0].units);
      var rest := claims[1..];
      var l := StopsSomewhere(table, holds + [h], run, rest);
      k := l + 1;
      assert claims[..k][1..] == rest[..l];
    }
  }

  /**
   * For a run that holds nothing yet and positive units, the error is raised
   * exactly when the claims up to some point can be met and the next one
   * repeats a resource that still has room for both.
   */
  lemma RejectedExactly(table: ResourceTable, holds: seq<Hold>, run: RunId, claims: seq<Claim>)
    requires FreshRun(table, holds, run, claims)
    ensures Acquire(table, holds, run, claims).0 == Rejected
            <==> exists k :: 0 <= k < |claims| && AllSatisfiable(table, holds, run, claims[..k])
                   && RepeatsAt(table, holds, claims, k)
  {
    hide Acquire, Used, HasHold, AllSatisfiable, RepeatsAt, HoldsFor;
    if k: nat :| k < |claims| && AllSatisfiable(table, holds, run, claims[..k]) && RepeatsAt(table, holds, claims, k) {
      StoppedAt(table, holds, run, claims, k);
    }
    if Acquire(table, holds, run, claims).0 == Rejected {
      var k := StopsSomewhere(table, holds, run, claims);
      assert claims[..|claims|] == claims;
      AcquiredExactly(table, holds, run, claims[..k]);
      StoppedAt(table, holds, run, claims, k);
    }
  }

  lemma StoppedAt(table: ResourceTable, holds: seq<Hold>, run: RunId, claims: seq<Claim>, k: nat)
    requires FreshRun(table, holds, run, claims) && k < |claims| && AllSatisfiable(table, holds, run, claims[..k])
    ensures RepeatsAt(table, holds, claims, k) ==> Acquire(table, holds, run, claims).0 == Rejected
    ensures !Satisfiable(table, Acquire(table, holds, run, claims[..k]).1, run, claims[k])
            ==> (Acquire(table, holds, run, claims).0 == Rejected ==> RepeatsAt(table, holds, claims, k))
  {
    hide Used, HasHold, AllSatisfiable, RepeatsAt, HoldsFor;
    AcquiredExactly(table, holds, run, claims[..k]);
    AcquireInTwo(table, holds, run, claims, k);
    forall i | 0 <= i < k
      ensures claims[i].resource in table
    {
      assert claims[..k][i] == claims[i];
    }
    StepRejected(table, holds, run, claims, k);
    assert claims[k..][0] == claims[k];
  }
}
