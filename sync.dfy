/**
 * The orchestration in `main.py`: `process_customer` (drain the retry
 * queue, fetch the customer, then search-and-create-or-update the entity,
 * each deal and the deal's two notes, retrying with a doubling delay),
 * `main` (every customer from a fixed offset on), `filtered_auto_close`
 * and `update_deals_with_no_seller`.  The CRM is the abstract store of
 * module Crm; the collaborators `main.py` calls but that are not part of
 * this model are oracles given as parameters.
 */
module Sync {

  import opened Wrappers
  import opened Py
  import opened Insly
  import opened Helper
  import opened Crm

  // =====================================================================
  // Constants and the retry delay

  /** `start_from`: the 1-based position in the customer list where `main` begins. */
  const StartFrom: int := 18616

  /** `max_retry_attempts`: how many ValueErrors `process_customer` tolerates. */
  const MaxRetryAttempts: nat := 2

  /** The first `retry_delay`, in seconds. */
  const FirstDelay: int := 5

  /** The cap on `retry_delay`, in seconds. */
  const MaxDelay: int := 60

  /** The customer type code of a company. */
  const CompanyType: int := 11

  /** `min(retry_delay * 2, 60)`. */
  function NextDelay(d: int): (r: int)
    ensures r <= MaxDelay && r <= 2 * d
    ensures r == MaxDelay || r == 2 * d
  {
    if d * 2 <= MaxDelay then d * 2 else MaxDelay
  }

  /** The delay before the n-th retry (counting from 0). */
  function Backoff(n: nat): int {
    if n == 0 then FirstDelay else NextDelay(Backoff(n - 1))
  }

  /** Every delay lies between 5 and 60 seconds. */
  lemma {:induction false} BackoffRange(n: nat)
    ensures FirstDelay <= Backoff(n) <= MaxDelay
  {
    if n > 0 {
      BackoffRange(n - 1);
    }
  }

  /** The delays are 5, 10, 20, 40 and then 60 for ever. */
  lemma {:induction false} BackoffValues(n: nat)
    ensures n == 0 ==> Backoff(n) == 5
    ensures n == 1 ==> Backoff(n) == 10
    ensures n == 2 ==> Backoff(n) == 20
    ensures n == 3 ==> Backoff(n) == 40
    ensures n >= 4 ==> Backoff(n) == 60
  {
    if n > 0 {
      BackoffValues(n - 1);
      if n == 4 {
        assert Backoff(3) == 40;
      }
    }
  }

  // =====================================================================
  // One pass over a customer: the entity, then per policy a deal and two notes

  /**
   * Where an attempt raises, if it does: just before write `step`, with
   * write 0 the customer's entity and, for the policy at position j,
   * write 1 + 3j its deal, 2 + 3j its objects note and 3 + 3j its payment
   * table note.  Step 1 + 3n, with n the number of policies, lies after
   * the last write: there the payment table note's create or update has
   * been made and reading the id out of its answer raises.  A fault stands
   * for whatever the searches, the body builders, the reading of a write's
   * answer and the collaborators not part of this model raise on the way.
   */
  datatype Fault = Fault(step: nat, error: Exception)

  predicate RaisesAt(fault: Option<Fault>, step: nat) {
    fault.Some? && fault.value.step == step
  }

  /** How a pass ended: the CRM afterwards, and the exception that cut it short, if any. */
  datatype Pass = Pass(crm: State, error: Option<Exception>)

  /** Customer type 11 is a company and becomes an organization; any other value a person. */
  function EntityKind(customer: CustomerRow): (k: Kind)
    ensures k == Organization <==> customer.customerType == Int(CompanyType)
    ensures k == Organization || k == Person
  {
    if customer.customerType == Int(CompanyType) then Organization else Person
  }

  /**
   * The policy loop from position `j` on: the deal searched by its title,
   * then the objects note (`object_i[i]`, out of range when fewer objects
   * than policies were supplied) and the payment table note, both searched
   * by the deal's id.
   */
  function PolicyPass(crm: State, rows: seq<PolicyRow>, j: nat, objectCount: nat, fault: Option<Fault>): Pass
    decreases |rows| - j
  {
    if j >= |rows| then (if RaisesAt(fault, 1 + 3 * j) then Pass(crm, Some(fault.value.error)) else Pass(crm, None))
    else if RaisesAt(fault, 1 + 3 * j) then Pass(crm, Some(fault.value.error))
    else
      var (c1, dealId) := Upsert(crm, Deal, Str(rows[j].title));
      if RaisesAt(fault, 2 + 3 * j) then Pass(c1, Some(fault.value.error))
      else if j >= objectCount then Pass(c1, Some(Other))
      else
        var c2 := Upsert(c1, Note, dealId).0;
        if RaisesAt(fault, 3 + 3 * j) then Pass(c2, Some(fault.value.error))
        else PolicyPass(Upsert(c2, PaymentNote, dealId).0, rows, j + 1, objectCount, fault)
  }

  /**
   * The body of the `try` once a customer was found: the entity searched
   * by the customer's oid (an organization also needs `address_i[0]`,
   * which is out of range when there is no address), then the policies.
   */
  function CustomerPass(crm: State, customer: CustomerRow, rows: seq<PolicyRow>, addresses: seq<AddressRow>,
                        objectCount: nat, fault: Option<Fault>): Pass
  {
    if RaisesAt(fault, 0) then Pass(crm, Some(fault.value.error))
    else if EntityKind(customer) == Organization && addresses == [] then Pass(crm, Some(Other))
    else PolicyPass(Upsert(crm, EntityKind(customer), customer.oid).0, rows, 0, objectCount, fault)
  }

  /** The same pass, one CRM call at a time. */
  method SyncCustomer(store: Store, customer: CustomerRow, rows: seq<PolicyRow>, addresses: seq<AddressRow>,
                      objectCount: nat, fault: Option<Fault>) returns (error: Option<Exception>)
    modifies store
    ensures Pass(store.Snapshot(), error) == CustomerPass(old(store.Snapshot()), customer, rows, addresses, objectCount, fault)
  {
    if RaisesAt(fault, 0) {
      return Some(fault.value.error);
    }
    var kind := EntityKind(customer);
    if kind == Organization && addresses == [] {
      return Some(Other);
    }
    var _ := store.Save(kind, customer.oid);
    var j := 0;
    while j < |rows|
      invariant 0 <= j <= |rows|
      invariant PolicyPass(store.Snapshot(), rows, j, objectCount, fault)
                == CustomerPass(old(store.Snapshot()), customer, rows, addresses, objectCount, fault)
      decreases |rows| - j
    {
      if RaisesAt(fault, 1 + 3 * j) {
        return Some(fault.value.error);
      }
      var dealId := store.Save(Deal, Str(rows[j].title));
      if RaisesAt(fault, 2 + 3 * j) {
        return Some(fault.value.error);
      }
      if j >= objectCount {
        return Some(Other);
      }
      var _ := store.Save(Note, dealId);
      if RaisesAt(fault, 3 + 3 * j) {
        return Some(fault.value.error);
      }
      var _ := store.Save(PaymentNote, dealId);
      j := j + 1;
    }
    if RaisesAt(fault, 1 + 3 * j) {
      return Some(fault.value.error);
    }
    return None;
  }

  // =====================================================================
  // Properties of a pass

  /** No fault at write `from` or later, and an object for every policy. */
  predicate Clean(rows: seq<PolicyRow>, objectCount: nat, fault: Option<Fault>, from: nat) {
    && objectCount >= |rows|
    && (fault.Some? ==> fault.value.step < from)
  }

  /** The three writes of one policy when nothing raises: its deal, then the two notes of that deal. */
  function DealAndNotes(crm: State, row: PolicyRow): State {
    var (c1, dealId) := Upsert(crm, Deal, Str(row.title));
    Upsert(Upsert(c1, Note, dealId).0, PaymentNote, dealId).0
  }

  /** One policy with no fault at its three writes: the pass goes on from the next policy after its deal and notes. */
  lemma PolicyPassUnfold(crm: State, rows: seq<PolicyRow>, j: nat, objectCount: nat, fault: Option<Fault>)
    requires j < |rows| && j < objectCount
    requires !RaisesAt(fault, 1 + 3 * j) && !RaisesAt(fault, 2 + 3 * j) && !RaisesAt(fault, 3 + 3 * j)
    ensures PolicyPass(crm, rows, j, objectCount, fault) == PolicyPass(DealAndNotes(crm, rows[j]), rows, j + 1, objectCount, fault)
  {
  }

  /** The three writes are appended in order, the deal found by its title and the notes by the deal's id afterwards. */
  lemma DealAndNotesFacts(crm: State, row: PolicyRow)
    ensures var c := DealAndNotes(crm, row);
            var key := (Deal, Str(row.title));
            && Extends(crm, c)
            && |c.writes| == |crm.writes| + 3
            && DealWrites(c.writes, |crm.writes|, row)
            && key in c.index && (Note, c.index[key]) in c.index && (PaymentNote, c.index[key]) in c.index
  {
    var (c1, dealId) := Upsert(crm, Deal, Str(row.title));
    var c2 := Upsert(c1, Note, dealId).0;
    var c3 := Upsert(c2, PaymentNote, dealId).0;
    UpsertNeverBoth(crm, Deal, Str(row.title));
    UpsertNeverBoth(c1, Note, dealId);
    UpsertNeverBoth(c2, PaymentNote, dealId);
    UpsertExtends(crm, Deal, Str(row.title));
    UpsertExtends(c1, Note, dealId);
    UpsertExtends(c2, PaymentNote, dealId);
    ExtendsTrans(crm, c1, c2);
    ExtendsTrans(crm, c2, c3);
    var n := |crm.writes|;
    assert c3.writes[n] == c2.writes[n] == c1.writes[n];
    assert c3.writes[n + 1] == c2.writes[n + 1];
  }

  /** A pass only appends writes, and never drops or changes an indexed record. */
  lemma {:induction false} PolicyPassGrows(crm: State, rows: seq<PolicyRow>, j: nat, objectCount: nat, fault: Option<Fault>)
    ensures Extends(crm, PolicyPass(crm, rows, j, objectCount, fault).crm)
    decreases |rows| - j
  {
    if j < |rows| {
      PolicyPassStopped(crm, rows, j, objectCount, fault);
      var (c1, dealId) := Upsert(crm, Deal, Str(rows[j].title));
      var c2 := Upsert(c1, Note, dealId).0;
      UpsertExtends(crm, Deal, Str(rows[j].title));
      UpsertExtends(c1, Note, dealId);
      ExtendsTrans(crm, c1, c2);
      if !RaisesAt(fault, 1 + 3 * j) && !RaisesAt(fault, 2 + 3 * j) && j < objectCount && !RaisesAt(fault, 3 + 3 * j) {
        var c3 := DealAndNotes(crm, rows[j]);
        DealAndNotesFacts(crm, rows[j]);
        PolicyPassUnfold(crm, rows, j, objectCount, fault);
        PolicyPassGrows(c3, rows, j + 1, objectCount, fault);
        ExtendsTrans(crm, c3, PolicyPass(c3, rows, j + 1, objectCount, fault).crm);
      }
    }
  }

  /** Where a policy's pass stops: before its deal, after the deal, or after the objects note. */
  lemma PolicyPassStopped(crm: State, rows: seq<PolicyRow>, j: nat, objectCount: nat, fault: Option<Fault>)
    requires j < |rows|
    ensures var (c1, dealId) := Upsert(crm, Deal, Str(rows[j].title));
            var c2 := Upsert(c1, Note, dealId).0;
            var p := PolicyPass(crm, rows, j, objectCount, fault).crm;
            && (RaisesAt(fault, 1 + 3 * j) ==> p == crm)
            && (!RaisesAt(fault, 1 + 3 * j) && (RaisesAt(fault, 2 + 3 * j) || j >= objectCount) ==> p == c1)
            && (!RaisesAt(fault, 1 + 3 * j) && !RaisesAt(fault, 2 + 3 * j) && j < objectCount && RaisesAt(fault, 3 + 3 * j) ==> p == c2)
  {
  }

  /** Deal writes already made stay where they are as the log grows. */
  lemma DealWritesKept(a: State, b: State, i: nat, row: PolicyRow)
    requires Extends(a, b) && DealWrites(a.writes, i, row)
    ensures DealWrites(b.writes, i, row)
  {
    assert b.writes[..|a.writes|] == a.writes;
    assert b.writes[i] == a.writes[i] && b.writes[i + 1] == a.writes[i + 1] && b.writes[i + 2] == a.writes[i + 2];
  }

  /** From write `i` on, the deal and notes of every policy from `j` on, three writes each. */
  predicate DealsFrom(ws: seq<Write>, i: nat, rows: seq<PolicyRow>, j: nat)
    decreases |rows| - j
  {
    j < |rows| ==> DealWrites(ws, i, rows[j]) && DealsFrom(ws, i + 3, rows, j + 1)
  }

  /** The m-th policy's writes sit 3(m - j) writes after the j-th's. */
  lemma {:induction false} DealsFromAt(ws: seq<Write>, i: nat, rows: seq<PolicyRow>, j: nat, m: nat)
    requires DealsFrom(ws, i, rows, j) && j <= m < |rows|
    ensures DealWrites(ws, i + 3 * (m - j), rows[m])
    decreases m - j
  {
    if m > j {
      DealsFromAt(ws, i + 3, rows, j + 1, m);
    }
  }

  /**
   * Without a fault, a pass over the policies from `j` on ends without an
   * exception and writes, for each policy in order, its deal (searched by
   * title), then its objects note and its payment note, both for that
   * deal's id.
   */
  lemma {:induction false} PolicyPassWrites(crm: State, rows: seq<PolicyRow>, j: nat, objectCount: nat, fault: Option<Fault>)
    requires j <= |rows| && objectCount >= |rows|
    requires fault.Some? ==> fault.value.step < 1 + 3 * j
    ensures var p := PolicyPass(crm, rows, j, objectCount, fault);
            && p.error == None
            && |p.crm.writes| == |crm.writes| + 3 * (|rows| - j)
            && DealsFrom(p.crm.writes, |crm.writes|, rows, j)
    decreases |rows| - j
  {
    if j < |rows| {
      var c3 := DealAndNotes(crm, rows[j]);
      DealAndNotesFacts(crm, rows[j]);
      PolicyPassUnfold(crm, rows, j, objectCount, fault);
      PolicyPassWrites(c3, rows, j + 1, objectCount, fault);
      PolicyPassGrows(c3, rows, j + 1, objectCount, fault);
      DealWritesKept(c3, PolicyPass(c3, rows, j + 1, objectCount, fault).crm, |crm.writes|, rows[j]);
    }
  }

  /**
   * A fault after the last write: the pass makes every write a clean pass
   * makes, and then raises.
   */
  lemma {:induction false} PolicyPassRaisesAfterLastWrite(crm: State, rows: seq<PolicyRow>, j: nat, objectCount: nat,
                                                           e: Exception)
    requires j <= |rows| && objectCount >= |rows|
    ensures PolicyPass(crm, rows, j, objectCount, Some(Fault(1 + 3 * |rows|, e)))
            == Pass(PolicyPass(crm, rows, j, objectCount, None).crm, Some(e))
    decreases |rows| - j
  {
    if j < |rows| {
      var fault := Some(Fault(1 + 3 * |rows|, e));
      PolicyPassUnfold(crm, rows, j, objectCount, fault);
      PolicyPassUnfold(crm, rows, j, objectCount, None);
      PolicyPassRaisesAfterLastWrite(DealAndNotes(crm, rows[j]), rows, j + 1, objectCount, e);
    }
  }

  /**
   * When reading the answer of the payment table note's write raises, the
   * customer's pass has made all its writes, exactly those of a clean
   * pass, and ends with that exception.
   */
  lemma CustomerPassRaisesAfterLastWrite(crm: State, customer: CustomerRow, rows: seq<PolicyRow>,
                                         addresses: seq<AddressRow>, objectCount: nat, e: Exception)
    requires objectCount >= |rows|
    requires customer.customerType == Int(CompanyType) ==> addresses != []
    ensures var p := CustomerPass(crm, customer, rows, addresses, objectCount, Some(Fault(1 + 3 * |rows|, e)));
            var clean := CustomerPass(crm, customer, rows, addresses, objectCount, None);
            && clean.error == None
            && p == Pass(clean.crm, Some(e))
  {
    var c0 := Upsert(crm, EntityKind(customer), customer.oid).0;
    CustomerPassUnfold(crm, customer, rows, addresses, objectCount, Some(Fault(1 + 3 * |rows|, e)));
    CustomerPassUnfold(crm, customer, rows, addresses, objectCount, None);
    PolicyPassWrites(c0, rows, 0, objectCount, None);
    PolicyPassRaisesAfterLastWrite(c0, rows, 0, objectCount, e);
  }

  /** Writes `i`, `i + 1` and `i + 2` are the deal of `row`, then its two notes keyed by the deal's id. */
  predicate DealWrites(ws: seq<Write>, i: nat, row: PolicyRow) {
    && i + 2 < |ws|
    && ws[i].kind == Deal && ws[i].key == Str(row.title)
    && ws[i + 1].kind == Note && ws[i + 1].key == ws[i].id
    && ws[i + 2].kind == PaymentNote && ws[i + 2].key == ws[i].id
  }

  /**
   * A clean pass over a customer raises nothing and writes 1 + 3n records:
   * the entity first, an organization exactly for type 11, searched by the
   * oid, after everything written before.
   */
  lemma CustomerPassEntity(crm: State, customer: CustomerRow, rows: seq<PolicyRow>, addresses: seq<AddressRow>,
                           objectCount: nat, fault: Option<Fault>)
    requires Clean(rows, objectCount, fault, 0)
    requires customer.customerType == Int(CompanyType) ==> addresses != []
    ensures var p := CustomerPass(crm, customer, rows, addresses, objectCount, fault);
            var n := |crm.writes|;
            && p.error == None
            && |p.crm.writes| == n + 1 + 3 * |rows|
            && p.crm.writes[..n] == crm.writes
            && (p.crm.writes[n].kind == Organization <==> customer.customerType == Int(CompanyType))
            && (p.crm.writes[n].kind == Organization || p.crm.writes[n].kind == Person)
            && p.crm.writes[n].key == customer.oid
  {
    var kind := EntityKind(customer);
    var c0 := Upsert(crm, kind, customer.oid).0;
    var n := |crm.writes|;
    CustomerPassUnfold(crm, customer, rows, addresses, objectCount, fault);
    UpsertNeverBoth(crm, kind, customer.oid);
    PolicyPassWrites(c0, rows, 0, objectCount, fault);
    PolicyPassGrows(c0, rows, 0, objectCount, fault);
    var ws := PolicyPass(c0, rows, 0, objectCount, fault).crm.writes;
    assert ws[..n + 1] == c0.writes;
    assert ws[..n] == ws[..n + 1][..n];
    assert ws[n] == c0.writes[n];
  }

  /**
   * After the entity, a clean pass writes for every policy in order its
   * deal, searched by title, and then that deal's two notes.
   */
  lemma CustomerPassDeals(crm: State, customer: CustomerRow, rows: seq<PolicyRow>, addresses: seq<AddressRow>,
                          objectCount: nat, fault: Option<Fault>)
    requires Clean(rows, objectCount, fault, 0)
    requires customer.customerType == Int(CompanyType) ==> addresses != []
    ensures var p := CustomerPass(crm, customer, rows, addresses, objectCount, fault);
            forall m | 0 <= m < |rows| :: DealWrites(p.crm.writes, |crm.writes| + 1 + 3 * m, rows[m])
  {
    var kind := EntityKind(customer);
    var c0 := Upsert(crm, kind, customer.oid).0;
    CustomerPassUnfold(crm, customer, rows, addresses, objectCount, fault);
    UpsertNeverBoth(crm, kind, customer.oid);
    PolicyPassWrites(c0, rows, 0, objectCount, fault);
    DealsFromAll(PolicyPass(c0, rows, 0, objectCount, fault).crm.writes, |c0.writes|, rows);
  }

  /** Every policy's deal and notes, read off the recursive layout. */
  lemma DealsFromAll(ws: seq<Write>, i: nat, rows: seq<PolicyRow>)
    requires DealsFrom(ws, i, rows, 0)
    ensures forall m | 0 <= m < |rows| :: DealWrites(ws, i + 3 * m, rows[m])
  {
    forall m | 0 <= m < |rows|
      ensures DealWrites(ws, i + 3 * m, rows[m])
    {
      DealsFromAt(ws, i, rows, 0, m);
    }
  }

  /** A pass that raises nowhere before its first policy upserts the customer and goes on to the policies. */
  lemma CustomerPassUnfold(crm: State, customer: CustomerRow, rows: seq<PolicyRow>, addresses: seq<AddressRow>,
                           objectCount: nat, fault: Option<Fault>)
    requires !RaisesAt(fault, 0)
    requires EntityKind(customer) == Organization ==> addresses != []
    ensures CustomerPass(crm, customer, rows, addresses, objectCount, fault)
            == PolicyPass(Upsert(crm, EntityKind(customer), customer.oid).0, rows, 0, objectCount, fault)
  {
  }

  /** Every policy from `j` on has its deal, and that deal its two notes, in the index. */
  predicate Covers(crm: State, rows: seq<PolicyRow>, j: nat) {
    forall m | j <= m < |rows| ::
      && (Deal, Str(rows[m].title)) in crm.index
      && (Note, crm.index[(Deal, Str(rows[m].title))]) in crm.index
      && (PaymentNote, crm.index[(Deal, Str(rows[m].title))]) in crm.index
  }

  /** Records a later pass leaves in place keep covering. */
  lemma CoversKept(a: State, b: State, rows: seq<PolicyRow>, j: nat)
    requires Extends(a, b) && Covers(a, rows, j)
    ensures Covers(b, rows, j)
  {
  }

  /** After a clean pass, the search finds every deal and note the pass wrote. */
  lemma {:induction false} PolicyPassCovers(crm: State, rows: seq<PolicyRow>, j: nat, objectCount: nat, fault: Option<Fault>)
    requires j <= |rows| && objectCount >= |rows|
    requires fault.Some? ==> fault.value.step < 1 + 3 * j
    ensures Covers(PolicyPass(crm, rows, j, objectCount, fault).crm, rows, j)
    decreases |rows| - j
  {
    if j < |rows| {
      var c3 := DealAndNotes(crm, rows[j]);
      DealAndNotesFacts(crm, rows[j]);
      PolicyPassUnfold(crm, rows, j, objectCount, fault);
      PolicyPassCovers(c3, rows, j + 1, objectCount, fault);
      PolicyPassGrows(c3, rows, j + 1, objectCount, fault);
      CoversCons(c3, PolicyPass(c3, rows, j + 1, objectCount, fault).crm, rows, j);
    }
  }

  /** A policy whose deal and notes are indexed, in front of a later state that covers the rest. */
  lemma CoversCons(a: State, b: State, rows: seq<PolicyRow>, j: nat)
    requires j < |rows| && Extends(a, b) && Covers(b, rows, j + 1)
    requires var key := (Deal, Str(rows[j].title));
             key in a.index && (Note, a.index[key]) in a.index && (PaymentNote, a.index[key]) in a.index
    ensures Covers(b, rows, j)
  {
    var key := (Deal, Str(rows[j].title));
    assert b.index[key] == a.index[key];
    assert (Note, a.index[key]) in b.index && (PaymentNote, a.index[key]) in b.index;
  }

  /** Over an index that already covers the policy, its deal and notes change the index not at all and only update. */
  lemma DealAndNotesOnlyUpdate(crm: State, row: PolicyRow)
    requires (Deal, Str(row.title)) in crm.index
    requires (Note, crm.index[(Deal, Str(row.title))]) in crm.index
    requires (PaymentNote, crm.index[(Deal, Str(row.title))]) in crm.index
    ensures var c := DealAndNotes(crm, row);
            && c.index == crm.index && c.nextId == crm.nextId
            && c.writes[..|crm.writes|] == crm.writes
            && |c.writes| == |crm.writes| + 3
            && forall i | |crm.writes| <= i < |c.writes| :: c.writes[i].Updated?
  {
  }

  /** Over an index that already covers the policies, a clean pass creates nothing and leaves the index as it was. */
  lemma {:induction false} PolicyPassOnlyUpdates(crm: State, rows: seq<PolicyRow>, j: nat, objectCount: nat, fault: Option<Fault>)
    requires j <= |rows| && objectCount >= |rows|
    requires fault.Some? ==> fault.value.step < 1 + 3 * j
    requires Covers(crm, rows, j)
    ensures var p := PolicyPass(crm, rows, j, objectCount, fault);
            && p.crm.index == crm.index && p.crm.nextId == crm.nextId
            && |crm.writes| <= |p.crm.writes|
            && forall i | |crm.writes| <= i < |p.crm.writes| :: p.crm.writes[i].Updated?
    decreases |rows| - j
  {
    if j < |rows| {
      var c3 := DealAndNotes(crm, rows[j]);
      DealAndNotesOnlyUpdate(crm, rows[j]);
      PolicyPassUnfold(crm, rows, j, objectCount, fault);
      PolicyPassOnlyUpdates(c3, rows, j + 1, objectCount, fault);
      PolicyPassGrows(c3, rows, j + 1, objectCount, fault);
      var p := PolicyPass(c3, rows, j + 1, objectCount, fault);
      forall i | |crm.writes| <= i < |p.crm.writes|
        ensures p.crm.writes[i].Updated?
      {
        if i < |c3.writes| {
          assert p.crm.writes[i] == p.crm.writes[..|c3.writes|][i];
        }
      }
    }
  }

  /**
   * Running the same clean pass twice: the second run searches and finds
   * every record the first one wrote, so it only updates and the index
   * does not change.
   */
  lemma ResyncOnlyUpdates(crm: State, customer: CustomerRow, rows: seq<PolicyRow>, addresses: seq<AddressRow>,
                          objectCount: nat, fault: Option<Fault>)
    requires Clean(rows, objectCount, fault, 0)
    requires customer.customerType == Int(CompanyType) ==> addresses != []
    ensures var first := CustomerPass(crm, customer, rows, addresses, objectCount, fault).crm;
            var second := CustomerPass(first, customer, rows, addresses, objectCount, fault).crm;
            && second.index == first.index
            && |first.writes| < |second.writes|
            && forall i | |first.writes| <= i < |second.writes| :: second.writes[i].Updated?
  {
    var kind := EntityKind(customer);
    var c0 := Upsert(crm, kind, customer.oid).0;
    UpsertNeverBoth(crm, kind, customer.oid);
    var first := PolicyPass(c0, rows, 0, objectCount, fault).crm;
    PolicyPassGrows(c0, rows, 0, objectCount, fault);
    PolicyPassCovers(c0, rows, 0, objectCount, fault);
    assert (kind, customer.oid) in first.index;
    var d0 := Upsert(first, kind, customer.oid).0;
    assert d0.index == first.index;
    PolicyPassOnlyUpdates(d0, rows, 0, objectCount, fault);
    var second := PolicyPass(d0, rows, 0, objectCount, fault).crm;
    forall i | |first.writes| <= i < |second.writes|
      ensures second.writes[i].Updated?
    {
      if i == |first.writes| {
        PolicyPassGrows(d0, rows, 0, objectCount, fault);
        assert second.writes[i] == second.writes[..|d0.writes|][i];
      }
    }
  }

  // =====================================================================
  // process_customer: the retry machine

  /**
   * What one pass of the `try` block is given: the answer to
   * `get_customer_policy`, how many entries `object_i` has, and where, if
   * anywhere, a call raises.  `object_i` and `payment_table` are not
   * computed by the fetch as this model has it; only their count matters.
   */
  datatype Attempt = Attempt(fetch: PolicyFetch, objectCount: nat, fault: Option<Fault>)

  /** How one pass of the `try` block ended. */
  datatype AttemptEnd = Synced | NoCustomer | Threw(error: Exception)

  /** The queue and the CRM: what `process_customer` changes. */
  datatype World = World(buffer: seq<RetryEntry>, crm: State)

  /**
   * How `process_customer` ended: every policy synced, no customer data, a
   * second ValueError, the loop condition failing, an exception out of
   * `retry_requests`, or no more answers supplied (the oracle ran out
   * while the source would still be retrying).
   */
  datatype Finish = Completed | Skipped | GaveUp | Exhausted | Propagated(error: Exception) | Stalled

  /** The finish, the world afterwards, each pass's end in order, and the pause before each retry. */
  datatype Run = Run(finish: Finish, world: World, ends: seq<AttemptEnd>, sleeps: seq<int>)

  /**
   * One pass: the fetch (which queues the customer on a 429), then, with
   * customer data, the CRM pass.  `None` from the fetch cannot be unpacked
   * into the five lists and raises a TypeError.
   */
  function AttemptOnce(w: World, oid: Value, counter: int, a: Attempt): (r: (AttemptEnd, World))
    ensures r.1.buffer == w.buffer + Enqueued(oid, counter, a.fetch)
  {
    var buffer := w.buffer + Enqueued(oid, counter, a.fetch);
    match PolicyOutcome(oid, a.fetch)
    case Raised(e) => (Threw(e), World(buffer, w.crm))
    case NoResult => (Threw(Other), World(buffer, w.crm))
    case Fetched(sh) =>
      if sh.customers == [] then (NoCustomer, World(buffer, w.crm))
      else
        var p := CustomerPass(w.crm, sh.customers[0], sh.policies, sh.addresses, a.objectCount, a.fault);
        (if p.error.Some? then Threw(p.error.value) else Synced, World(buffer, p.crm))
  }

  /** The count of ValueErrors among the ends. */
  function ValueErrors(ends: seq<AttemptEnd>): nat {
    if ends == [] then 0 else (if ends[0] == Threw(ValueErr) then 1 else 0) + ValueErrors(ends[1..])
  }

  /**
   * The `while` loop from pass `k` on, with `used` ValueErrors counted and
   * the current `retry_delay`: a ValueError counts, and the one that uses
   * up the budget returns at once; any other exception only retries.
   */
  function Retry(w: World, oid: Value, counter: int, attempts: seq<Attempt>, k: nat, used: nat, delay: int): (r: Run)
    decreases |attempts| - k
  {
    if used == MaxRetryAttempts then Run(Exhausted, w, [], [])
    else if k >= |attempts| then Run(Stalled, w, [], [])
    else
      var (end, w1) := AttemptOnce(w, oid, counter, attempts[k]);
      match end
      case Synced => Run(Completed, w1, [end], [])
      case NoCustomer => Run(Skipped, w1, [end], [])
      case Threw(e) =>
        var used1 := if e == ValueErr then used + 1 else used;
        if e == ValueErr && MaxRetryAttempts - used1 == 0 then Run(GaveUp, w1, [end], [])
        else
          var r := Retry(w1, oid, counter, attempts, k + 1, used1, NextDelay(delay));
          Run(r.finish, r.world, [end] + r.ends, [delay] + r.sleeps)
  }

  /**
   * `process_customer(pd, oid, counter)`: drain the retry queue, with
   * `drain[k]` answering its k-th retried fetch, then the retry loop, with
   * `attempts[k]` the k-th pass.
   */
  function ProcessRun(w: World, oid: Value, counter: int, drain: seq<PolicyFetch>, attempts: seq<Attempt>): Run {
    var d := DrainQueue(w.buffer, drain);
    match d.end
    case Escaped(e) => Run(Propagated(e), World(d.buffer, w.crm), [], [])
    case OutOfAnswers => Run(Stalled, World(d.buffer, w.crm), [], [])
    case Emptied => Retry(World(d.buffer, w.crm), oid, counter, attempts, 0, 0, FirstDelay)
  }

  /** `ends` and `sleeps` of the passes already made, in front of the rest of the run. */
  function After(ends: seq<AttemptEnd>, sleeps: seq<int>, r: Run): Run {
    Run(r.finish, r.world, ends + r.ends, sleeps + r.sleeps)
  }

  /** One pass of the loop, as `Retry` takes it. */
  lemma RetryUnfold(w: World, oid: Value, counter: int, attempts: seq<Attempt>, k: nat, used: nat, delay: int,
                    end: AttemptEnd, w1: World)
    requires used < MaxRetryAttempts && k < |attempts|
    requires (end, w1) == AttemptOnce(w, oid, counter, attempts[k])
    ensures end.Synced? ==> Retry(w, oid, counter, attempts, k, used, delay) == Run(Completed, w1, [end], [])
    ensures end.NoCustomer? ==> Retry(w, oid, counter, attempts, k, used, delay) == Run(Skipped, w1, [end], [])
    ensures end.Threw? ==>
              var used1 := if end.error == ValueErr then used + 1 else used;
              Retry(w, oid, counter, attempts, k, used, delay)
              == if end.error == ValueErr && used1 == MaxRetryAttempts then Run(GaveUp, w1, [end], [])
                 else After([end], [delay], Retry(w1, oid, counter, attempts, k + 1, used1, NextDelay(delay)))
  {
  }

  /** Passes already made, in front of passes already made in front of the rest. */
  lemma AfterAfter(ends: seq<AttemptEnd>, sleeps: seq<int>, end: AttemptEnd, delay: int, r: Run)
    ensures After(ends, sleeps, After([end], [delay], r)) == After(ends + [end], sleeps + [delay], r)
  {
    assert ends + ([end] + r.ends) == ends + [end] + r.ends;
    assert sleeps + ([delay] + r.sleeps) == sleeps + [delay] + r.sleeps;
  }

  /** One pass of the `try` block, one call at a time. */
  method TryOnce(client: Client, store: Store, oid: Value, counter: int, a: Attempt) returns (end: AttemptEnd)
    modifies client, store
    ensures (end, World(client.retryBuffer, store.Snapshot())) == AttemptOnce(old(World(client.retryBuffer, store.Snapshot())), oid, counter, a)
  {
    var outcome := client.GetCustomerPolicy(oid, counter, a.fetch);
    if outcome.Raised? {
      end := Threw(outcome.error);
    } else if outcome.NoResult? {
      end := Threw(Other);
    } else if outcome.shaped.customers == [] {
      end := NoCustomer;
    } else {
      var sh := outcome.shaped;
      var error := SyncCustomer(store, sh.customers[0], sh.policies, sh.addresses, a.objectCount, a.fault);
      end := if error.Some? then Threw(error.value) else Synced;
    }
  }

  /** `process_customer`, one call at a time, over the module-level queue of `client` and the CRM `store`. */
  method ProcessCustomer(client: Client, store: Store, oid: Value, counter: int,
                         drain: seq<PolicyFetch>, attempts: seq<Attempt>) returns (finish: Finish, sleeps: seq<int>)
    modifies client, store
    ensures var r := ProcessRun(old(World(client.retryBuffer, store.Snapshot())), oid, counter, drain, attempts);
            finish == r.finish && sleeps == r.sleeps && World(client.retryBuffer, store.Snapshot()) == r.world
  {
    var drained := RetryRequests(client, drain);
    if drained.Escaped? {
      return Propagated(drained.error), [];
    }
    if drained.OutOfAnswers? {
      return Stalled, [];
    }
    finish, sleeps := RetryLoop(client, store, oid, counter, attempts);
  }

  /** One pass of the loop, with the passes made before it in front. */
  lemma RetryStep(ends: seq<AttemptEnd>, sleeps: seq<int>, w: World, oid: Value, counter: int, attempts: seq<Attempt>,
                  k: nat, used: nat, delay: int, end: AttemptEnd, w1: World)
    requires used < MaxRetryAttempts && k < |attempts|
    requires (end, w1) == AttemptOnce(w, oid, counter, attempts[k])
    ensures end.Synced? ==> After(ends, sleeps, Retry(w, oid, counter, attempts, k, used, delay)) == Run(Completed, w1, ends + [end], sleeps)
    ensures end.NoCustomer? ==> After(ends, sleeps, Retry(w, oid, counter, attempts, k, used, delay)) == Run(Skipped, w1, ends + [end], sleeps)
    ensures end == Threw(ValueErr) && used + 1 == MaxRetryAttempts ==>
              After(ends, sleeps, Retry(w, oid, counter, attempts, k, used, delay)) == Run(GaveUp, w1, ends + [end], sleeps)
  {
    RetryUnfold(w, oid, counter, attempts, k, used, delay, end, w1);
    assert sleeps + [] == sleeps;
  }

  /** A pass that raised without using up the budget: the loop goes on after it and its pause. */
  lemma RetryStepOn(ends: seq<AttemptEnd>, sleeps: seq<int>, w: World, oid: Value, counter: int, attempts: seq<Attempt>,
                    k: nat, used: nat, delay: int, end: AttemptEnd, w1: World, used1: nat)
    requires used < MaxRetryAttempts && k < |attempts|
    requires (end, w1) == AttemptOnce(w, oid, counter, attempts[k])
    requires end.Threw? && used1 == (if end.error == ValueErr then used + 1 else used) && used1 < MaxRetryAttempts
    ensures After(ends, sleeps, Retry(w, oid, counter, attempts, k, used, delay))
            == After(ends + [end], sleeps + [delay], Retry(w1, oid, counter, attempts, k + 1, used1, NextDelay(delay)))
  {
    RetryUnfold(w, oid, counter, attempts, k, used, delay, end, w1);
    AfterAfter(ends, sleeps, end, delay, Retry(w1, oid, counter, attempts, k + 1, used1, NextDelay(delay)));
  }

  /** The `while` loop of `process_customer`. */
  method RetryLoop(client: Client, store: Store, oid: Value, counter: int, attempts: seq<Attempt>)
    returns (finish: Finish, sleeps: seq<int>)
    modifies client, store
    ensures var r := Retry(old(World(client.retryBuffer, store.Snapshot())), oid, counter, attempts, 0, 0, FirstDelay);
            finish == r.finish && sleeps == r.sleeps && World(client.retryBuffer, store.Snapshot()) == r.world
  {
    ghost var spec := Retry(World(client.retryBuffer, store.Snapshot()), oid, counter, attempts, 0, 0, FirstDelay);
    ghost var ends: seq<AttemptEnd> := [];
    var delay := FirstDelay;
    var used: nat := 0;
    var k := 0;
    sleeps := [];
    assert ends + spec.ends == spec.ends && sleeps + spec.sleeps == spec.sleeps;
    while used != MaxRetryAttempts
      invariant 0 <= k <= |attempts| && used <= MaxRetryAttempts
      invariant spec == After(ends, sleeps, Retry(World(client.retryBuffer, store.Snapshot()), oid, counter, attempts, k, used, delay))
      decreases |attempts| - k
    {
      if k == |attempts| {
        assert ends + [] == ends && sleeps + [] == sleeps;
        return Stalled, sleeps;
      }
      ghost var before := World(client.retryBuffer, store.Snapshot());
      var end := TryOnce(client, store, oid, counter, attempts[k]);
      ghost var after := World(client.retryBuffer, store.Snapshot());
      if end == Synced {
        RetryStep(ends, sleeps, before, oid, counter, attempts, k, used, delay, end, after);
        return Completed, sleeps;
      }
      if end == NoCustomer {
        RetryStep(ends, sleeps, before, oid, counter, attempts, k, used, delay, end, after);
        return Skipped, sleeps;
      }
      ghost var usedBefore := used;
      if end.error == ValueErr {
        used := used + 1;
        if MaxRetryAttempts - used == 0 {
          RetryStep(ends, sleeps, before, oid, counter, attempts, k, usedBefore, delay, end, after);
          return GaveUp, sleeps;
        }
      }
      RetryStepOn(ends, sleeps, before, oid, counter, attempts, k, usedBefore, delay, end, after, used);
      ends := ends + [end];
      sleeps := sleeps + [delay];
      delay := NextDelay(delay);
      k := k + 1;
    }
    assert ends + [] == ends && sleeps + [] == sleeps;
    return Exhausted, sleeps;
  }

  // =====================================================================
  // Properties of the retry machine

  /** The k-th pause of a run that starts with delay `Backoff(n)` is `Backoff(n + k)`. */
  lemma {:induction false} RetryBackoff(w: World, oid: Value, counter: int, attempts: seq<Attempt>, k: nat, used: nat, n: nat, delay: int)
    requires used < MaxRetryAttempts && delay == Backoff(n)
    ensures BackedOff(Retry(w, oid, counter, attempts, k, used, delay).sleeps, n)
    decreases |attempts| - k
  {
    if k < |attempts| {
      var (end, w1) := AttemptOnce(w, oid, counter, attempts[k]);
      RetryUnfold(w, oid, counter, attempts, k, used, delay, end, w1);
      if end.Threw? {
        var used1 := if end.error == ValueErr then used + 1 else used;
        if used1 < MaxRetryAttempts {
          assert Backoff(n + 1) == NextDelay(delay);
          RetryBackoff(w1, oid, counter, attempts, k + 1, used1, n + 1, NextDelay(delay));
          BackedOffCons(n, Retry(w1, oid, counter, attempts, k + 1, used1, NextDelay(delay)).sleeps);
        }
      }
    }
  }

  /** The i-th pause is `Backoff(n + i)`. */
  predicate BackedOff(sleeps: seq<int>, n: nat) {
    forall i | 0 <= i < |sleeps| :: sleeps[i] == Backoff(n + i)
  }

  /** The pause `Backoff(n)` in front of pauses backed off from `n + 1`. */
  lemma BackedOffCons(n: nat, rest: seq<int>)
    requires BackedOff(rest, n + 1)
    ensures BackedOff([Backoff(n)] + rest, n)
  {
    forall i | 0 < i < 1 + |rest|
      ensures ([Backoff(n)] + rest)[i] == Backoff(n + i)
    {
      assert ([Backoff(n)] + rest)[i] == rest[i - 1];
    }
  }

  /**
   * Every pass but the last raised and was followed by a pause; the loop
   * condition never ends a run, and nothing propagates out of it.
   */
  lemma {:induction false} RetryPauses(w: World, oid: Value, counter: int, attempts: seq<Attempt>, k: nat, used: nat, delay: int)
    requires used < MaxRetryAttempts
    ensures Paced(Retry(w, oid, counter, attempts, k, used, delay))
    decreases |attempts| - k
  {
    if k < |attempts| {
      var (end, w1) := AttemptOnce(w, oid, counter, attempts[k]);
      RetryUnfold(w, oid, counter, attempts, k, used, delay, end, w1);
      if end.Threw? {
        var used1 := if end.error == ValueErr then used + 1 else used;
        if used1 < MaxRetryAttempts {
          RetryPauses(w1, oid, counter, attempts, k + 1, used1, NextDelay(delay));
          PacedAfter(end, delay, Retry(w1, oid, counter, attempts, k + 1, used1, NextDelay(delay)));
        }
      }
    }
  }

  /** Every pass but the last raised and was followed by a pause; the loop condition never ends a run, and nothing propagates out of it. */
  predicate Paced(r: Run) {
    && r.finish != Exhausted && !r.finish.Propagated?
    && |r.sleeps| <= |r.ends|
    && (forall i | 0 <= i < |r.sleeps| :: r.ends[i].Threw?)
    && (r.finish == Stalled <==> |r.ends| == |r.sleeps|)
    && (r.finish != Stalled ==> |r.ends| == |r.sleeps| + 1)
  }

  /** A pass that raised, and its pause, in front of a paced run. */
  lemma PacedAfter(end: AttemptEnd, delay: int, r: Run)
    requires end.Threw? && Paced(r)
    ensures Paced(After([end], [delay], r))
  {
    var r' := After([end], [delay], r);
    forall i | 0 <= i < |r'.sleeps|
      ensures r'.ends[i].Threw?
    {
      if i > 0 {
        assert r'.ends[i] == r.ends[i - 1];
      }
    }
  }

  /**
   * The last pass says how the run ended: a synced customer, no customer
   * data, or the ValueError that used up the budget; only a run out of
   * passes may have made none.
   */
  predicate EndsAsFinished(r: Run) {
    && (r.finish == Stalled || r.ends != [])
    && (r.finish == Completed ==> r.ends[|r.ends| - 1] == Synced)
    && (r.finish == Skipped ==> r.ends[|r.ends| - 1] == NoCustomer)
    && (r.finish == GaveUp ==> r.ends[|r.ends| - 1] == Threw(ValueErr))
  }

  /** Passes put in front of a run keep its last pass last. */
  lemma EndsAsFinishedAfter(ends: seq<AttemptEnd>, sleeps: seq<int>, r: Run)
    requires EndsAsFinished(r) && (r.finish == Stalled ==> ends != [])
    ensures EndsAsFinished(After(ends, sleeps, r))
  {
    if r.ends != [] {
      assert (ends + r.ends)[|ends + r.ends| - 1] == r.ends[|r.ends| - 1];
    }
  }

  lemma {:induction false} RetryLastEnd(w: World, oid: Value, counter: int, attempts: seq<Attempt>, k: nat, used: nat, delay: int)
    requires used < MaxRetryAttempts
    ensures EndsAsFinished(Retry(w, oid, counter, attempts, k, used, delay))
    decreases |attempts| - k
  {
    if k < |attempts| {
      var (end, w1) := AttemptOnce(w, oid, counter, attempts[k]);
      RetryUnfold(w, oid, counter, attempts, k, used, delay, end, w1);
      if end.Threw? {
        var used1 := if end.error == ValueErr then used + 1 else used;
        if used1 < MaxRetryAttempts {
          RetryLastEnd(w1, oid, counter, attempts, k + 1, used1, NextDelay(delay));
          EndsAsFinishedAfter([end], [delay], Retry(w1, oid, counter, attempts, k + 1, used1, NextDelay(delay)));
        }
      }
    }
  }

  /** The count of ValueErrors one end adds in front. */
  lemma ValueErrorsCons(end: AttemptEnd, rest: seq<AttemptEnd>)
    ensures ValueErrors([end] + rest) == (if end == Threw(ValueErr) then 1 else 0) + ValueErrors(rest)
  {
    assert ([end] + rest)[1..] == rest;
  }

  /**
   * Only ValueErrors use the budget: a run gives up exactly when the
   * ValueErrors it met, with those counted before, reach two, and it
   * never meets more.
   */
  lemma {:induction false} RetryBudget(w: World, oid: Value, counter: int, attempts: seq<Attempt>, k: nat, used: nat, delay: int)
    requires used < MaxRetryAttempts
    ensures WithinBudget(Retry(w, oid, counter, attempts, k, used, delay), used)
    decreases |attempts| - k
  {
    if k < |attempts| {
      var (end, w1) := AttemptOnce(w, oid, counter, attempts[k]);
      RetryUnfold(w, oid, counter, attempts, k, used, delay, end, w1);
      ValueErrorsCons(end, []);
      if end.Threw? {
        var used1 := if end.error == ValueErr then used + 1 else used;
        if used1 < MaxRetryAttempts {
          RetryBudget(w1, oid, counter, attempts, k + 1, used1, NextDelay(delay));
          BudgetAfter(end, delay, Retry(w1, oid, counter, attempts, k + 1, used1, NextDelay(delay)), used);
        }
      }
    }
  }

  /** With `used` ValueErrors counted before, the run never meets more than the budget allows, and gives up exactly when it meets the last one. */
  predicate WithinBudget(r: Run, used: nat) {
    && used + ValueErrors(r.ends) <= MaxRetryAttempts
    && (r.finish == GaveUp <==> used + ValueErrors(r.ends) == MaxRetryAttempts)
  }

  /** A pass that raised without using up the budget, in front of the rest of the run. */
  lemma BudgetAfter(end: AttemptEnd, delay: int, r: Run, used: nat)
    requires end.Threw?
    requires var used1 := if end.error == ValueErr then used + 1 else used;
             used1 < MaxRetryAttempts && WithinBudget(r, used1)
    ensures WithinBudget(After([end], [delay], r), used)
  {
    ValueErrorsCons(end, r.ends);
  }

  /** An exception out of the queue drain propagates before any pass is made. */
  lemma ProcessRunDrainFirst(w: World, oid: Value, counter: int, drain: seq<PolicyFetch>, attempts: seq<Attempt>)
    ensures var r := ProcessRun(w, oid, counter, drain, attempts);
            var d := DrainQueue(w.buffer, drain);
            && (d.end.Escaped? <==> r.finish.Propagated?)
            && (d.end.Escaped? ==> r.finish.error == d.end.error && r.ends == [] && r.world == World(d.buffer, w.crm))
            && (d.end.OutOfAnswers? ==> r.finish == Stalled && r.ends == [])
  {
    if DrainQueue(w.buffer, drain).end == Emptied {
      RetryPauses(World(DrainQueue(w.buffer, drain).buffer, w.crm), oid, counter, attempts, 0, 0, FirstDelay);
    }
  }

  /** The pauses of `process_customer` are 5, 10, 20, 40, 60, 60, ... seconds. */
  lemma ProcessRunBackoff(w: World, oid: Value, counter: int, drain: seq<PolicyFetch>, attempts: seq<Attempt>)
    ensures var r := ProcessRun(w, oid, counter, drain, attempts);
            forall i | 0 <= i < |r.sleeps| :: r.sleeps[i] == Backoff(i) && FirstDelay <= r.sleeps[i] <= MaxDelay
  {
    var d := DrainQueue(w.buffer, drain);
    if d.end == Emptied {
      var w0 := World(d.buffer, w.crm);
      RetryBackoff(w0, oid, counter, attempts, 0, 0, 0, FirstDelay);
      var r := Retry(w0, oid, counter, attempts, 0, 0, FirstDelay);
      forall i | 0 <= i < |r.sleeps|
        ensures r.sleeps[i] == Backoff(i) && FirstDelay <= r.sleeps[i] <= MaxDelay
      {
        assert Retry(w0, oid, counter, attempts, 0, 0, FirstDelay).sleeps[i] == Backoff(0 + i);
        BackoffRange(i);
      }
    }
  }

  /**
   * `process_customer` gives up exactly at the second ValueError, right
   * after it and with no pause; every other pass that raised is retried
   * after a pause; an empty customer or a completed pass returns at once.
   */
  lemma ProcessRunRetries(w: World, oid: Value, counter: int, drain: seq<PolicyFetch>, attempts: seq<Attempt>)
    ensures var r := ProcessRun(w, oid, counter, drain, attempts);
            && r.finish != Exhausted
            && ValueErrors(r.ends) <= MaxRetryAttempts
            && (r.finish == GaveUp <==> ValueErrors(r.ends) == MaxRetryAttempts)
            && |r.sleeps| <= |r.ends|
            && (forall i | 0 <= i < |r.sleeps| :: r.ends[i].Threw?)
            && (r.finish == GaveUp ==> r.ends[|r.ends| - 1] == Threw(ValueErr) && |r.sleeps| == |r.ends| - 1)
            && (r.finish == Completed ==> r.ends[|r.ends| - 1] == Synced && |r.sleeps| == |r.ends| - 1)
            && (r.finish == Skipped ==> r.ends[|r.ends| - 1] == NoCustomer && |r.sleeps| == |r.ends| - 1)
  {
    var d := DrainQueue(w.buffer, drain);
    if d.end == Emptied {
      var w0 := World(d.buffer, w.crm);
      RetryPauses(w0, oid, counter, attempts, 0, 0, FirstDelay);
      RetryLastEnd(w0, oid, counter, attempts, 0, 0, FirstDelay);
      RetryBudget(w0, oid, counter, attempts, 0, 0, FirstDelay);
    }
  }

  // =====================================================================
  // main: every customer from position `start_from` on

  /** `s[start:]` for a start that is not negative: empty when the start is past the end. */
  function Slice<T>(s: seq<T>, start: nat): (r: seq<T>)
    ensures |r| == if start <= |s| then |s| - start else 0
    ensures forall j | 0 <= j < |r| :: r[j] == s[start + j]
  {
    if start <= |s| then s[start..] else []
  }

  /** One pair of `enumerate(remaining_oids, start=start_from)`. */
  datatype Scheduled = Scheduled(oid: Value, counter: int)

  /** `enumerate(items, start)`. */
  function Enumerate(items: seq<Value>, start: int): (r: seq<Scheduled>)
    ensures |r| == |items|
    ensures forall j | 0 <= j < |r| :: r[j] == Scheduled(items[j], start + j)
  {
    seq(|items|, j requires 0 <= j < |items| => Scheduled(items[j], start + j))
  }

  /** The customers `main` processes, with the counter each is processed under. */
  function Schedule(oids: seq<Value>): seq<Scheduled> {
    Enumerate(Slice(oids, StartFrom - 1), StartFrom)
  }

  /**
   * `main` takes the customers from position 18616 (1-based) on, in list
   * order, each once, and the counter it passes is the customer's 1-based
   * position in the whole list; a shorter list gives nothing to do.
   */
  lemma ScheduleAt(oids: seq<Value>)
    ensures |Schedule(oids)| == if |oids| >= StartFrom then |oids| - StartFrom + 1 else 0
    ensures forall j | 0 <= j < |Schedule(oids)| ::
              && Schedule(oids)[j].counter == StartFrom + j
              && 1 <= Schedule(oids)[j].counter <= |oids|
              && Schedule(oids)[j].oid == oids[Schedule(oids)[j].counter - 1]
  {
  }

  /** What one customer's processing is given: answers for the queue drain and for each pass. */
  datatype Script = Script(drain: seq<PolicyFetch>, attempts: seq<Attempt>)

  /**
   * How `main` ended: no customers, an exception from `get_customer_list`,
   * every scheduled customer processed, an exception out of a customer's
   * queue drain, or no more answers supplied.
   */
  datatype MainEnd = NoCustomers | ListFailed(error: Exception) | Finished | Aborted(error: Exception) | Halted

  /** The end, the world afterwards, and the customers processed, in order. */
  datatype MainRun = MainRun(end: MainEnd, world: World, processed: seq<Scheduled>)

  /** The loop of `main` from position `j` of the schedule on, `scripts[j]` answering the j-th customer. */
  function RunSchedule(w: World, sched: seq<Scheduled>, scripts: seq<Script>, j: nat): MainRun
    decreases |sched| - j
  {
    if j >= |sched| then MainRun(Finished, w, [])
    else if j >= |scripts| then MainRun(Halted, w, [])
    else
      var r := ProcessRun(w, sched[j].oid, sched[j].counter, scripts[j].drain, scripts[j].attempts);
      if r.finish.Propagated? then MainRun(Aborted(r.finish.error), r.world, [sched[j]])
      else if r.finish == Stalled then MainRun(Halted, r.world, [sched[j]])
      else
        var m := RunSchedule(r.world, sched, scripts, j + 1);
        MainRun(m.end, m.world, [sched[j]] + m.processed)
  }

  /** `main(pd)`: the customer list, then the schedule; no list or an empty one returns at once. */
  function MainSpec(w: World, listAnswer: HttpAnswer<Option<map<string, Value>>>, scripts: seq<Script>): MainRun {
    match GetCustomerList(listAnswer)
    case Failure(e) => MainRun(ListFailed(e), w, [])
    case Success(oids) =>
      if oids.None? || oids.value == [] then MainRun(NoCustomers, w, [])
      else RunSchedule(w, Schedule(oids.value), scripts, 0)
  }

  /** One customer of the loop, as `RunSchedule` takes it. */
  lemma RunScheduleUnfold(w: World, sched: seq<Scheduled>, scripts: seq<Script>, j: nat, r: Run)
    requires j < |sched| && j < |scripts|
    requires r == ProcessRun(w, sched[j].oid, sched[j].counter, scripts[j].drain, scripts[j].attempts)
    ensures RunSchedule(w, sched, scripts, j)
            == if r.finish.Propagated? then MainRun(Aborted(r.finish.error), r.world, [sched[j]])
               else if r.finish == Stalled then MainRun(Halted, r.world, [sched[j]])
               else var m := RunSchedule(r.world, sched, scripts, j + 1); MainRun(m.end, m.world, [sched[j]] + m.processed)
  {
  }

  /** Customers processed before, in front of the rest of the loop. */
  function Behind(processed: seq<Scheduled>, m: MainRun): MainRun {
    MainRun(m.end, m.world, processed + m.processed)
  }

  /** One customer of the loop, with the customers processed before it in front. */
  lemma MainStep(processed: seq<Scheduled>, w: World, sched: seq<Scheduled>, scripts: seq<Script>, j: nat, r: Run)
    requires j < |sched| && j < |scripts|
    requires r == ProcessRun(w, sched[j].oid, sched[j].counter, scripts[j].drain, scripts[j].attempts)
    ensures r.finish.Propagated? ==>
              Behind(processed, RunSchedule(w, sched, scripts, j)) == MainRun(Aborted(r.finish.error), r.world, processed + [sched[j]])
    ensures r.finish == Stalled ==>
              Behind(processed, RunSchedule(w, sched, scripts, j)) == MainRun(Halted, r.world, processed + [sched[j]])
    ensures !r.finish.Propagated? && r.finish != Stalled ==>
              Behind(processed, RunSchedule(w, sched, scripts, j))
              == Behind(processed + [sched[j]], RunSchedule(r.world, sched, scripts, j + 1))
  {
    RunScheduleUnfold(w, sched, scripts, j, r);
    var m := RunSchedule(r.world, sched, scripts, j + 1);
    assert processed + ([sched[j]] + m.processed) == processed + [sched[j]] + m.processed;
  }

  /** `main(pd)`, one customer at a time. */
  method RunMain(client: Client, store: Store, listAnswer: HttpAnswer<Option<map<string, Value>>>, scripts: seq<Script>)
    returns (end: MainEnd, processed: seq<Scheduled>)
    modifies client, store
    ensures MainRun(end, World(client.retryBuffer, store.Snapshot()), processed)
            == MainSpec(old(World(client.retryBuffer, store.Snapshot())), listAnswer, scripts)
  {
    var list := GetCustomerList(listAnswer);
    if list.Failure? {
      return ListFailed(list.error), [];
    }
    if list.value.None? || list.value.value == [] {
      return NoCustomers, [];
    }
    var oids := list.value.value;
    var remaining := Slice(oids, StartFrom - 1);
    ghost var sched := Schedule(oids);
    ghost var spec := RunSchedule(World(client.retryBuffer, store.Snapshot()), sched, scripts, 0);
    assert spec == MainSpec(old(World(client.retryBuffer, store.Snapshot())), listAnswer, scripts);
    processed := [];
    var j := 0;
    assert spec == Behind(processed, spec);
    while j < |remaining|
      invariant 0 <= j <= |remaining| == |sched|
      invariant spec == Behind(processed, RunSchedule(World(client.retryBuffer, store.Snapshot()), sched, scripts, j))
      decreases |remaining| - j
    {
      if j >= |scripts| {
        assert processed + [] == processed;
        return Halted, processed;
      }
      var oid, counter := remaining[j], StartFrom + j;
      assert sched[j] == Scheduled(oid, counter);
      ghost var before := World(client.retryBuffer, store.Snapshot());
      var finish, _ := ProcessCustomer(client, store, oid, counter, scripts[j].drain, scripts[j].attempts);
      MainStep(processed, before, sched, scripts, j, ProcessRun(before, oid, counter, scripts[j].drain, scripts[j].attempts));
      if finish.Propagated? {
        return Aborted(finish.error), processed + [Scheduled(oid, counter)];
      }
      if finish == Stalled {
        return Halted, processed + [Scheduled(oid, counter)];
      }
      processed := processed + [Scheduled(oid, counter)];
      j := j + 1;
    }
    assert processed + [] == processed;
    return Finished, processed;
  }

  /**
   * The loop took the schedule in order from `j`, each customer once; only
   * a loop that ran to its end processed all of it.
   */
  predicate InOrder(m: MainRun, sched: seq<Scheduled>, j: nat) {
    && j + |m.processed| <= |sched|
    && m.processed == sched[j..j + |m.processed|]
    && (m.end == Finished ==> m.processed == sched[j..])
    && (m.end == Halted || m.end == Finished || m.end.Aborted?)
  }

  /** A customer processed in front of a loop that kept the order from the next position on. */
  lemma InOrderCons(m: MainRun, sched: seq<Scheduled>, j: nat)
    requires j < |sched| && InOrder(m, sched, j + 1)
    ensures InOrder(MainRun(m.end, m.world, [sched[j]] + m.processed), sched, j)
  {
    assert [sched[j]] + sched[j + 1..j + 1 + |m.processed|] == sched[j..j + 1 + |m.processed|];
    assert [sched[j]] + sched[j + 1..] == sched[j..];
  }

  /** The loop of `main` keeps to the schedule. */
  lemma {:induction false} RunScheduleInOrder(w: World, sched: seq<Scheduled>, scripts: seq<Script>, j: nat)
    requires j <= |sched|
    ensures InOrder(RunSchedule(w, sched, scripts, j), sched, j)
    decreases |sched| - j
  {
    if j < |sched| && j < |scripts| {
      var r := ProcessRun(w, sched[j].oid, sched[j].counter, scripts[j].drain, scripts[j].attempts);
      RunScheduleUnfold(w, sched, scripts, j, r);
      if !r.finish.Propagated? && r.finish != Stalled {
        RunScheduleInOrder(r.world, sched, scripts, j + 1);
        InOrderCons(RunSchedule(r.world, sched, scripts, j + 1), sched, j);
      } else {
        assert [sched[j]] == sched[j..j + 1];
      }
    }
  }

  /**
   * `main` as a whole: a failing list request propagates, no customers
   * returns, and otherwise the customers processed are, in order, a prefix
   * of the schedule, all of it exactly when the loop ran to its end.
   */
  lemma MainProcessesSchedule(w: World, listAnswer: HttpAnswer<Option<map<string, Value>>>, scripts: seq<Script>)
    ensures var m := MainSpec(w, listAnswer, scripts);
            var list := GetCustomerList(listAnswer);
            && (list.Failure? ==> m.end == ListFailed(list.error))
            && (list.Success? && (list.value.None? || list.value.value == []) ==> m.end == NoCustomers && m.world == w)
            && (list.Success? && list.value.Some? && list.value.value != [] ==>
                  var sched := Schedule(list.value.value);
                  && |m.processed| <= |sched| && m.processed == sched[..|m.processed|]
                  && (m.end == Finished ==> m.processed == sched))
  {
    var list := GetCustomerList(listAnswer);
    if list.Success? && list.value.Some? && list.value.value != [] {
      RunScheduleInOrder(w, Schedule(list.value.value), scripts, 0);
    }
  }

  // =====================================================================
  // update_deals_with_no_seller: each policy number once

  /** The placeholder a deal without a policy number carries. */
  const MissingNumber: string := "Policy number is missing."

  /** A call of `process_table_policies` for a deal: its policy number, its position in the list, and its id. */
  datatype TableCall = TableCall(number: Value, index: nat, dealId: Value)

  /** `deal.get('policy_number')`. */
  function NumberOf(deal: map<string, Value>): Value {
    Lookup(deal, "policy_number")
  }

  /** The policy numbers of the calls, in order: what `cache` holds. */
  function Numbers(calls: seq<TableCall>): (r: seq<Value>)
    ensures |r| == |calls|
    ensures forall i | 0 <= i < |calls| :: r[i] == calls[i].number
  {
    seq(|calls|, i requires 0 <= i < |calls| => calls[i].number)
  }

  /**
   * The calls made for the first `n` deals: a deal is skipped when it
   * carries the placeholder or a number already in the cache; otherwise
   * its number joins the cache and the table is processed for it.
   */
  function Dedup(deals: seq<map<string, Value>>, n: nat): seq<TableCall>
    requires n <= |deals|
  {
    if n == 0 then []
    else
      var calls := Dedup(deals, n - 1);
      var number := NumberOf(deals[n - 1]);
      if number == Str(MissingNumber) || number in Numbers(calls) then calls
      else calls + [TableCall(number, n - 1, Lookup(deals[n - 1], "id"))]
  }

  /** `update_deals_with_no_seller(pd)` over the deals `Search.all_deals(filter_id=74)` returns. */
  method UpdateDealsWithNoSeller(deals: seq<map<string, Value>>) returns (calls: seq<TableCall>, cache: seq<Value>)
    ensures calls == Dedup(deals, |deals|)
    ensures cache == Numbers(calls)
  {
    calls, cache := [], [];
    for i := 0 to |deals|
      invariant calls == Dedup(deals, i)
      invariant cache == Numbers(calls)
    {
      var policyNumber := NumberOf(deals[i]);
      if policyNumber == Str(MissingNumber) {
        continue;
      }
      if policyNumber in cache {
        continue;
      }
      cache := cache + [policyNumber];
      calls := calls + [TableCall(policyNumber, i, Lookup(deals[i], "id"))];
    }
  }

  /**
   * The calls of the first `n` deals: never for the placeholder, each
   * number once, in the order of first occurrence, each for the deal where
   * its number first occurs, and one for every number that occurs.
   */
  lemma {:induction false} DedupFirstOccurrences(deals: seq<map<string, Value>>, n: nat)
    requires n <= |deals|
    ensures FirstOccurrences(Dedup(deals, n), deals, n)
    ensures Complete(Dedup(deals, n), deals, n)
  {
    if n > 0 {
      DedupFirstOccurrences(deals, n - 1);
      var calls := Dedup(deals, n - 1);
      var number := NumberOf(deals[n - 1]);
      if number == Str(MissingNumber) || number in Numbers(calls) {
        FirstOccurrencesSkip(calls, deals, n);
      } else {
        FirstOccurrencesAppend(calls, deals, n);
        CompleteAppend(calls, deals, n);
      }
    }
  }

  /** A deal whose number is the placeholder or already cached adds no call. */
  lemma FirstOccurrencesSkip(calls: seq<TableCall>, deals: seq<map<string, Value>>, n: nat)
    requires 0 < n <= |deals| && FirstOccurrences(calls, deals, n - 1) && Complete(calls, deals, n - 1)
    requires NumberOf(deals[n - 1]) == Str(MissingNumber) || NumberOf(deals[n - 1]) in Numbers(calls)
    ensures FirstOccurrences(calls, deals, n) && Complete(calls, deals, n)
  {
  }

  /**
   * Never a call for the placeholder, each number once, in the order of
   * first occurrence among the first `n` deals, each for the deal where its
   * number first occurs.
   */
  predicate FirstOccurrences(calls: seq<TableCall>, deals: seq<map<string, Value>>, n: nat)
    requires n <= |deals|
  {
    && (forall a | 0 <= a < |calls| :: calls[a].number != Str(MissingNumber))
    && Distinct(calls)
    && AtFirst(calls, deals, n)
  }

  /** In list order, each number once. */
  predicate Distinct(calls: seq<TableCall>) {
    forall a, b | 0 <= a < b < |calls| :: calls[a].index < calls[b].index && calls[a].number != calls[b].number
  }

  /** Each call is for the first of the first `n` deals with its number, with that deal's id. */
  predicate AtFirst(calls: seq<TableCall>, deals: seq<map<string, Value>>, n: nat)
    requires n <= |deals|
  {
    forall a | 0 <= a < |calls| ::
      && calls[a].index < n
      && NumberOf(deals[calls[a].index]) == calls[a].number
      && calls[a].dealId == Lookup(deals[calls[a].index], "id")
      && forall i | 0 <= i < calls[a].index :: NumberOf(deals[i]) != calls[a].number
  }

  /** Every number other than the placeholder among the first `n` deals is cached. */
  predicate Complete(calls: seq<TableCall>, deals: seq<map<string, Value>>, n: nat)
    requires n <= |deals|
  {
    forall i | 0 <= i < n && NumberOf(deals[i]) != Str(MissingNumber) :: NumberOf(deals[i]) in Numbers(calls)
  }

  /** A deal with a new number adds the call for it, last. */
  lemma FirstOccurrencesAppend(calls: seq<TableCall>, deals: seq<map<string, Value>>, n: nat)
    requires 0 < n <= |deals| && FirstOccurrences(calls, deals, n - 1) && Complete(calls, deals, n - 1)
    requires NumberOf(deals[n - 1]) != Str(MissingNumber) && NumberOf(deals[n - 1]) !in Numbers(calls)
    ensures FirstOccurrences(calls + [TableCall(NumberOf(deals[n - 1]), n - 1, Lookup(deals[n - 1], "id"))], deals, n)
  {
    var last := TableCall(NumberOf(deals[n - 1]), n - 1, Lookup(deals[n - 1], "id"));
    DistinctAppend(calls, last, n - 1);
    AtFirstAppend(calls, deals, n);
    assert (calls + [last])[|calls|] == last;
  }

  /** A number not cached yet, at a later index, keeps the calls distinct and in order. */
  lemma DistinctAppend(calls: seq<TableCall>, last: TableCall, bound: nat)
    requires Distinct(calls) && last.number !in Numbers(calls)
    requires forall a | 0 <= a < |calls| :: calls[a].index < bound
    requires last.index == bound
    ensures Distinct(calls + [last])
  {
    var calls' := calls + [last];
    forall a | 0 <= a < |calls|
      ensures calls'[a] == calls[a] && calls[a].number != last.number
    {
      assert Numbers(calls)[a] == calls[a].number;
    }
  }

  /** The call for a number no earlier deal has is at its first occurrence. */
  lemma AtFirstAppend(calls: seq<TableCall>, deals: seq<map<string, Value>>, n: nat)
    requires 0 < n <= |deals| && AtFirst(calls, deals, n - 1) && Complete(calls, deals, n - 1)
    requires NumberOf(deals[n - 1]) != Str(MissingNumber) && NumberOf(deals[n - 1]) !in Numbers(calls)
    ensures AtFirst(calls + [TableCall(NumberOf(deals[n - 1]), n - 1, Lookup(deals[n - 1], "id"))], deals, n)
  {
    var number := NumberOf(deals[n - 1]);
    var calls' := calls + [TableCall(number, n - 1, Lookup(deals[n - 1], "id"))];
    assert forall a | 0 <= a < |calls| :: calls'[a] == calls[a];
    forall i | 0 <= i < n - 1
      ensures NumberOf(deals[i]) != number
    {
    }
  }

  /** The new number joins the cache, and the cached ones stay. */
  lemma CompleteAppend(calls: seq<TableCall>, deals: seq<map<string, Value>>, n: nat)
    requires 0 < n <= |deals| && Complete(calls, deals, n - 1)
    ensures Complete(calls + [TableCall(NumberOf(deals[n - 1]), n - 1, Lookup(deals[n - 1], "id"))], deals, n)
  {
    var calls' := calls + [TableCall(NumberOf(deals[n - 1]), n - 1, Lookup(deals[n - 1], "id"))];
    assert Numbers(calls') == Numbers(calls) + [NumberOf(deals[n - 1])];
  }

  /** The cache grows by one exactly at a deal whose number is neither the placeholder nor already cached. */
  lemma DedupGrowth(deals: seq<map<string, Value>>, n: nat)
    requires n < |deals|
    ensures var number := NumberOf(deals[n]);
            |Dedup(deals, n + 1)| == |Dedup(deals, n)| + (if number == Str(MissingNumber) || number in Numbers(Dedup(deals, n)) then 0 else 1)
  {
  }

  // =====================================================================
  // filtered_auto_close: won when fully paid and expired

  /** A call of `Update.deal_status(deal_id, 'won')`: the deal's position in the list and its id. */
  datatype StatusCall = StatusCall(index: nat, dealId: Value)

  /**
   * The calls made for the first `n` deals, with `paid` and `expired`
   * answering `is_it_fully_paid` and `is_it_expired` for a policy oid.
   */
  function Closed(deals: seq<map<string, Value>>, paid: Value -> bool, expired: Value -> bool, n: nat): seq<StatusCall>
    requires n <= |deals|
  {
    if n == 0 then []
    else
      var calls := Closed(deals, paid, expired, n - 1);
      var policy := Lookup(deals[n - 1], "policy");
      if paid(policy) && expired(policy) then calls + [StatusCall(n - 1, Lookup(deals[n - 1], "id"))] else calls
  }

  /** `filtered_auto_close(pd)` over the deals `Search.all_deals(filter_id=107)` returns. */
  method FilteredAutoClose(deals: seq<map<string, Value>>, paid: Value -> bool, expired: Value -> bool)
    returns (calls: seq<StatusCall>)
    ensures calls == Closed(deals, paid, expired, |deals|)
  {
    calls := [];
    for i := 0 to |deals|
      invariant calls == Closed(deals, paid, expired, i)
    {
      var policyOid := Lookup(deals[i], "policy");
      var dealId := Lookup(deals[i], "id");
      if paid(policyOid) {
        if expired(policyOid) {
          calls := calls + [StatusCall(i, dealId)];
        }
      }
    }
  }

  /** The indices of the deals set to won. */
  function ClosedIndices(calls: seq<StatusCall>): set<nat> {
    set a | 0 <= a < |calls| :: calls[a].index
  }

  /** A call appended sets one more deal to won. */
  lemma ClosedIndicesAppend(calls: seq<StatusCall>, c: StatusCall)
    ensures ClosedIndices(calls + [c]) == ClosedIndices(calls) + {c.index}
  {
    var calls' := calls + [c];
    forall x ensures x in ClosedIndices(calls') <==> x in ClosedIndices(calls) + {c.index} {
      if x in ClosedIndices(calls') {
        var a :| 0 <= a < |calls'| && calls'[a].index == x;
        if a < |calls| {
          assert calls[a].index == x;
        }
      }
      if x in ClosedIndices(calls) {
        var a :| 0 <= a < |calls| && calls[a].index == x;
        assert calls'[a].index == x;
      }
      if x == c.index {
        assert calls'[|calls|].index == x;
      }
    }
  }

  /** Among the first `n` deals, a deal is set to won exactly when its policy is both fully paid and expired. */
  lemma {:induction false} ClosedExactly(deals: seq<map<string, Value>>, paid: Value -> bool, expired: Value -> bool, n: nat)
    requires n <= |deals|
    ensures var calls := Closed(deals, paid, expired, n);
            forall i | 0 <= i < n ::
              i in ClosedIndices(calls) <==> paid(Lookup(deals[i], "policy")) && expired(Lookup(deals[i], "policy"))
  {
    if n > 0 {
      ClosedExactly(deals, paid, expired, n - 1);
      ClosedInOrder(deals, paid, expired, n - 1);
      var calls := Closed(deals, paid, expired, n - 1);
      var policy := Lookup(deals[n - 1], "policy");
      assert n - 1 !in ClosedIndices(calls);
      if paid(policy) && expired(policy) {
        ClosedIndicesAppend(calls, StatusCall(n - 1, Lookup(deals[n - 1], "id")));
      }
    }
  }

  /** The calls go in list order, one per deal among the first `n`, each with that deal's id. */
  predicate InListOrder(calls: seq<StatusCall>, deals: seq<map<string, Value>>, n: nat)
    requires n <= |deals|
  {
    && (forall a, b | 0 <= a < b < |calls| :: calls[a].index < calls[b].index)
    && (forall a | 0 <= a < |calls| :: calls[a].index < n && calls[a].dealId == Lookup(deals[calls[a].index], "id"))
  }

  /** `filtered_auto_close` sets the deals to won in list order, each once, with its own id. */
  lemma {:induction false} ClosedInOrder(deals: seq<map<string, Value>>, paid: Value -> bool, expired: Value -> bool, n: nat)
    requires n <= |deals|
    ensures InListOrder(Closed(deals, paid, expired, n), deals, n)
  {
    if n > 0 {
      ClosedInOrder(deals, paid, expired, n - 1);
      var calls := Closed(deals, paid, expired, n - 1);
      var policy := Lookup(deals[n - 1], "policy");
      if paid(policy) && expired(policy) {
        var calls' := calls + [StatusCall(n - 1, Lookup(deals[n - 1], "id"))];
        assert forall a | 0 <= a < |calls| :: calls'[a] == calls[a];
      }
    }
  }
}
