/**
 * The CRM as the orchestrator sees it through `pipedrive.py`: records of
 * five kinds, each found by a search key, created when the search finds
 * nothing and updated otherwise.  The store is abstract: a record is its
 * (kind, key) pair and its id; the payload of a write is not kept.
 */
module Crm {

  import opened Py

  /** The record kinds the orchestrator writes: the customer as an organization or a person, a deal, and a deal's two notes. */
  datatype Kind = Organization | Person | Deal | Note | PaymentNote

  /** One write sent to the CRM: an `Add.*` that created record `id`, or an `Update.*` of the record `id` the search found. */
  datatype Write = Created(kind: Kind, key: Value, id: Value) | Updated(kind: Kind, key: Value, id: Value)

  /**
   * The CRM's observable state: what a search by (kind, key) finds, every
   * write sent so far in order, and the id the next created record gets.
   */
  datatype State = State(index: map<(Kind, Value), Value>, writes: seq<Write>, nextId: int)

  /** An empty CRM. */
  const Empty: State := State(map[], [], 1)

  /** Ids are the numbers the CRM handed out: every indexed id is `Int(n)` with `1 <= n < nextId`, and no two keys share one. */
  predicate Valid(st: State) {
    && st.nextId >= 1
    && (forall k | k in st.index :: st.index[k].Int? && 1 <= st.index[k].i < st.nextId)
    && (forall k, l | k in st.index && l in st.index && k != l :: st.index[k] != st.index[l])
  }

  /**
   * Search by (kind, key), then create or update: an update of the found
   * record when the search finds one, otherwise a create that the search
   * finds from then on.  The result is the record's id.
   */
  function Upsert(st: State, kind: Kind, key: Value): (r: (State, Value)) {
    if (kind, key) in st.index then
      var id := st.index[(kind, key)];
      (st.(writes := st.writes + [Updated(kind, key, id)]), id)
    else
      var id := Int(st.nextId);
      (State(st.index[(kind, key) := id], st.writes + [Created(kind, key, id)], st.nextId + 1), id)
  }

  /**
   * Exactly one write per upsert, never both: a create exactly when the
   * search found nothing, an update of the found id otherwise; afterwards
   * the search finds the returned id.
   */
  lemma UpsertNeverBoth(st: State, kind: Kind, key: Value)
    ensures var (st', id) := Upsert(st, kind, key);
            && |st'.writes| == |st.writes| + 1
            && st'.writes[..|st.writes|] == st.writes
            && (st'.writes[|st.writes|].Created? <==> (kind, key) !in st.index)
            && st'.writes[|st.writes|].kind == kind && st'.writes[|st.writes|].key == key
            && st'.writes[|st.writes|].id == id
            && ((kind, key) in st.index ==> id == st.index[(kind, key)])
            && (kind, key) in st'.index && st'.index[(kind, key)] == id
  {
    var (st', id) := Upsert(st, kind, key);
    assert st'.writes == st.writes + [st'.writes[|st.writes|]];
  }

  /** An upsert adds at most its own key to the index and changes no other entry. */
  lemma UpsertKeepsOthers(st: State, kind: Kind, key: Value)
    ensures var st' := Upsert(st, kind, key).0;
            && st'.index.Keys == st.index.Keys + {(kind, key)}
            && forall k | k in st.index :: st'.index[k] == st.index[k]
  {
  }

  /** A created record gets an id no indexed record has, so ids stay distinct. */
  lemma UpsertKeepsValid(st: State, kind: Kind, key: Value)
    requires Valid(st)
    ensures Valid(Upsert(st, kind, key).0)
    ensures (kind, key) !in st.index ==>
              forall k | k in st.index :: st.index[k] != Upsert(st, kind, key).1
  {
    var (st', id) := Upsert(st, kind, key);
    if (kind, key) !in st.index {
      forall k, l | k in st'.index && l in st'.index && k != l
        ensures st'.index[k] != st'.index[l]
      {
        if k == (kind, key) {
          assert st'.index[l] == st.index[l];
        } else if l == (kind, key) {
          assert st'.index[k] == st.index[k];
        }
      }
    }
  }

  /** Upserting the same key twice: the second call updates the record the first one left, and the index does not change. */
  lemma UpsertIdempotent(st: State, kind: Kind, key: Value)
    ensures var (st1, id1) := Upsert(st, kind, key);
            var (st2, id2) := Upsert(st1, kind, key);
            && id2 == id1 && st2.index == st1.index && st2.nextId == st1.nextId
            && st2.writes == st1.writes + [Updated(kind, key, id1)]
  {
  }

  /** `b` is `a` after more calls: the earlier writes are still first, and every record `a` indexes is indexed in `b` with the same id. */
  predicate Extends(a: State, b: State) {
    && |a.writes| <= |b.writes| && b.writes[..|a.writes|] == a.writes
    && forall k | k in a.index :: k in b.index && b.index[k] == a.index[k]
  }

  lemma ExtendsTrans(a: State, b: State, c: State)
    requires Extends(a, b) && Extends(b, c)
    ensures Extends(a, c)
  {
    assert c.writes[..|a.writes|] == c.writes[..|b.writes|][..|a.writes|];
  }

  /** An upsert only adds: its write goes last and no indexed record changes. */
  lemma UpsertExtends(st: State, kind: Kind, key: Value)
    ensures Extends(st, Upsert(st, kind, key).0)
  {
    UpsertNeverBoth(st, kind, key);
  }

  /** The CRM the orchestrator writes to, as an object whose state each call changes. */
  class Store {
    var index: map<(Kind, Value), Value>
    var writes: seq<Write>
    var nextId: int

    /** The store's state as a value. */
    function Snapshot(): State
      reads this
    {
      State(index, writes, nextId)
    }

    constructor ()
      ensures Snapshot() == Empty
    {
      index := map[];
      writes := [];
      nextId := 1;
    }

    /** Search, then create or update (`Search.*` followed by `Add.*` or `Update.*`). */
    method Save(kind: Kind, key: Value) returns (id: Value)
      modifies this
      ensures (Snapshot(), id) == Upsert(old(Snapshot()), kind, key)
    {
      if (kind, key) in index {
        id := index[(kind, key)];
        writes := writes + [Updated(kind, key, id)];
      } else {
        id := Int(nextId);
        index := index[(kind, key) := id];
        writes := writes + [Created(kind, key, id)];
        nextId := nextId + 1;
      }
    }
  }
}
