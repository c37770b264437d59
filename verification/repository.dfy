/** The generic soft-delete repository over one entity set. A set is a
    sequence of rows; a row's position stands for the tracked object the
    source passes to `Delete` and `DeletePermenantly`. */
module Repository {
  import opened Wrappers
  import opened Primitives
  import opened BaseEntities
  import Seqs

  type Table<T> = seq<Entity<T>>

  predicate Live<T>(e: Entity<T>) {
    !e.env.isDeleted
  }

  /** `Query`: the rows not soft-deleted, in store order. */
  function Query<T>(t: Table<T>): (r: Table<T>)
    ensures forall i :: 0 <= i < |r| ==> !r[i].env.isDeleted
    ensures forall i :: 0 <= i < |r| ==> r[i] in t
    ensures forall e :: e in t && !e.env.isDeleted ==> e in r
  {
    var r := Seqs.Filter(Live, t);
    forall e | e in t && !e.env.isDeleted ensures e in r {
      Seqs.FilterMembership(Live, t, e);
    }
    forall i | 0 <= i < |r| ensures r[i] in t {
      Seqs.FilterMembership(Live, t, r[i]);
    }
    r
  }

  /** `QueryToRead`: the same rows as `Query`, read without change tracking. */
  function QueryToRead<T>(t: Table<T>): (r: Table<T>)
    ensures r == Query(t)
  {
    Seqs.Filter(Live, t)
  }

  /** `QueryDeleted`: the soft-deleted rows, in store order. */
  function QueryDeleted<T>(t: Table<T>): (r: Table<T>)
    ensures forall i :: 0 <= i < |r| ==> r[i].env.isDeleted
    ensures forall i :: 0 <= i < |r| ==> r[i] in t
    ensures forall e :: e in t && e.env.isDeleted ==> e in r
  {
    var deleted := (e: Entity<T>) => e.env.isDeleted;
    var r := Seqs.Filter(deleted, t);
    forall e | e in t && e.env.isDeleted ensures e in r {
      Seqs.FilterMembership(deleted, t, e);
    }
    forall i | 0 <= i < |r| ensures r[i] in t {
      Seqs.FilterMembership(deleted, t, r[i]);
    }
    r
  }

  /** Position of the first non-deleted row with this id. */
  function FindActive<T>(t: Table<T>, id: Guid): (r: Option<nat>)
    ensures r.Some? ==> r.value < |t| && t[r.value].env.id == id && !t[r.value].env.isDeleted
    ensures r.Some? ==> forall k :: 0 <= k < r.value ==> t[k].env.id != id || t[k].env.isDeleted
    ensures r.None? ==> forall k :: 0 <= k < |t| ==> t[k].env.id != id || t[k].env.isDeleted
    decreases |t|
  {
    if |t| == 0 then None
    else if t[0].env.id == id && !t[0].env.isDeleted then Some(0)
    else
      match FindActive(t[1..], id)
      case None => None
      case Some(k) => Some(k + 1)
  }

  /** `GetByIdAsync`: the first non-deleted row with this id, or null. */
  function GetById<T>(t: Table<T>, id: Guid): (r: Option<Entity<T>>)
    ensures r.Some? <==> exists k :: 0 <= k < |t| && t[k].env.id == id && !t[k].env.isDeleted
    ensures r.Some? ==> r.value.env.id == id && !r.value.env.isDeleted
    ensures r.Some? ==> exists k :: 0 <= k < |t| && r.value == t[k]
                                  && forall j :: 0 <= j < k ==> t[j].env.id != id || t[j].env.isDeleted
  {
    match FindActive(t, id)
    case None => None
    case Some(k) => Some(t[k])
  }

  predicate Wanted<T>(ids: seq<Guid>, e: Entity<T>) {
    !e.env.isDeleted && e.env.id in ids
  }

  /** `GetByIdRangeAsync`: the non-deleted rows whose id is listed, in store
      order; unknown and deleted ids are silently omitted. */
  function GetByIdRange<T>(t: Table<T>, ids: seq<Guid>): (r: Table<T>)
    ensures forall i :: 0 <= i < |r| ==> !r[i].env.isDeleted && r[i].env.id in ids
  {
    Seqs.Filter(e => Wanted(ids, e), t)
  }

  /** `Insert` / `AddRange`: stage the given rows after the existing ones. */
  function AddRange<T>(t: Table<T>, es: seq<Entity<T>>): (r: Table<T>)
    ensures |r| == |t| + |es| && r[..|t|] == t && r[|t|..] == es
  {
    t + es
  }

  function Insert<T>(t: Table<T>, e: Entity<T>): (r: Table<T>)
    ensures r == AddRange(t, [e])
  {
    t + [e]
  }

  /** `Delete`: soft-deletes the row at position `k`; it stays stored. */
  function Delete<T>(t: Table<T>, k: nat): (r: Table<T>)
    requires k < |t|
    ensures |r| == |t|
    ensures r[k].env.isDeleted && SameAudit(r[k].env, t[k].env) && r[k].data == t[k].data
    ensures forall i :: 0 <= i < |t| && i != k ==> r[i] == t[i]
  {
    t[k := t[k].(env := BaseEntities.Delete(t[k].env))]
  }

  /** `DeleteRange`: soft-deletes every row at one of the positions `ks`. */
  function DeleteRange<T>(t: Table<T>, ks: seq<nat>): (r: Table<T>)
    requires forall j :: 0 <= j < |ks| ==> ks[j] < |t|
    ensures |r| == |t|
    ensures forall i :: 0 <= i < |t| && i in ks ==>
      r[i].env.isDeleted && SameAudit(r[i].env, t[i].env) && r[i].data == t[i].data
    ensures forall i :: 0 <= i < |t| && i !in ks ==> r[i] == t[i]
  {
    seq(|t|, i requires 0 <= i < |t| => if i in ks then t[i].(env := BaseEntities.Delete(t[i].env)) else t[i])
  }

  /** `DeletePermenantly`: removes the row at position `k`. */
  function DeletePermanently<T>(t: Table<T>, k: nat): (r: Table<T>)
    requires k < |t|
    ensures |r| == |t| - 1
    ensures multiset(r) == multiset(t) - multiset{t[k]}
    ensures Seqs.IsSubseq(r, t)
    ensures forall i :: 0 <= i < |t| && i != k ==> t[i] in r
  {
    var r := t[..k] + t[k + 1..];
    assert t == t[..k] + [t[k]] + t[k + 1..];
    Seqs.RemoveIsSubseq(t, k);
    forall i | 0 <= i < |t| && i != k ensures t[i] in r {
      if i < k { assert r[i] == t[i]; } else { assert r[i - 1] == t[i]; }
    }
    r
  }

  /** `Delete` applied to each position in turn. */
  function DeleteEach<T>(t: Table<T>, ks: seq<nat>): (r: Table<T>)
    requires forall j :: 0 <= j < |ks| ==> ks[j] < |t|
    ensures |r| == |t|
    decreases |ks|
  {
    if |ks| == 0 then t else DeleteEach(Delete(t, ks[0]), ks[1..])
  }

  /** `DeleteRange` is the same as deleting the rows one by one. */
  lemma {:induction false} DeleteRangeIsDeleteEach<T>(t: Table<T>, ks: seq<nat>)
    requires forall j :: 0 <= j < |ks| ==> ks[j] < |t|
    ensures DeleteRange(t, ks) == DeleteEach(t, ks)
    decreases |ks|
  {
    if |ks| > 0 {
      var t' := Delete(t, ks[0]);
      DeleteRangeIsDeleteEach(t', ks[1..]);
      forall i | 0 <= i < |t|
        ensures DeleteRange(t', ks[1..])[i] == DeleteRange(t, ks)[i]
      {
        assert i in ks <==> i == ks[0] || i in ks[1..] by {
          assert ks == [ks[0]] + ks[1..];
        }
      }
    }
  }

  /** The three views partition the set: every row is in exactly one of
      `Query` and `QueryDeleted`, and `QueryToRead` holds what `Query` holds. */
  lemma ViewsPartition<T>(t: Table<T>, e: Entity<T>)
    ensures e in Query(t) <==> e in t && !e.env.isDeleted
    ensures e in QueryDeleted(t) <==> e in t && e.env.isDeleted
    ensures e in QueryToRead(t) <==> e in Query(t)
    ensures |Query(t)| + |QueryDeleted(t)| == |t|
  {
    Seqs.FilterMembership(Live, t, e);
    Seqs.FilterMembership((e: Entity<T>) => e.env.isDeleted, t, e);
    PartitionSize(t);
  }

  lemma {:induction false} PartitionSize<T>(t: Table<T>)
    ensures |Query(t)| + |QueryDeleted(t)| == |t|
    decreases |t|
  {
    if |t| > 0 {
      PartitionSize(t[1..]);
    }
  }

  /** `GetByIdRange` selects exactly the live rows with a listed id, and keeps
      store order. */
  lemma GetByIdRangeSpec<T>(t: Table<T>, ids: seq<Guid>, e: Entity<T>)
    ensures e in GetByIdRange(t, ids) <==> e in t && !e.env.isDeleted && e.env.id in ids
    ensures Seqs.IsSubseq(GetByIdRange(t, ids), t)
  {
    Seqs.FilterMembership(e => Wanted(ids, e), t, e);
    Seqs.FilterIsSubseq(e => Wanted(ids, e), t);
  }

  /** An id with no live row is simply left out: the result can be shorter
      than the list of ids. */
  lemma GetByIdRangeOmitsMissing<T>(t: Table<T>, id: Guid)
    requires GetById(t, id).None?
    ensures GetByIdRange(t, [id]) == []
  {
    if GetByIdRange(t, [id]) != [] {
      var e := GetByIdRange(t, [id])[0];
      GetByIdRangeSpec(t, [id], e);
    }
  }

  /** After a soft delete the row is no longer found and sits in the deleted
      view, provided no other live row shares its id. */
  lemma DeleteMovesToDeleted<T>(t: Table<T>, k: nat)
    requires k < |t|
    requires forall i :: 0 <= i < |t| && i != k ==> t[i].env.id != t[k].env.id
    ensures GetById(Delete(t, k), t[k].env.id).None?
    ensures Delete(t, k)[k] in QueryDeleted(Delete(t, k))
    ensures Delete(t, k)[k] !in Query(Delete(t, k))
  {
    var t' := Delete(t, k);
    ViewsPartition(t', t'[k]);
  }

  /** After a permanent delete of a row whose id is unique, the id is in none
      of the views. */
  lemma DeletePermanentlyRemoves<T>(t: Table<T>, k: nat)
    requires k < |t|
    requires forall i :: 0 <= i < |t| && i != k ==> t[i].env.id != t[k].env.id
    ensures forall e :: e in Query(DeletePermanently(t, k)) ==> e.env.id != t[k].env.id
    ensures forall e :: e in QueryDeleted(DeletePermanently(t, k)) ==> e.env.id != t[k].env.id
    ensures GetById(DeletePermanently(t, k), t[k].env.id).None?
  {
    var t' := DeletePermanently(t, k);
    assert forall e :: e in t' ==> e.env.id != t[k].env.id by {
      forall e | e in t' ensures e.env.id != t[k].env.id {
        var i :| 0 <= i < |t'| && t'[i] == e;
        if i < k { assert e == t[i]; } else { assert e == t[i + 1]; }
      }
    }
    forall e | e in Query(t') ensures e.env.id != t[k].env.id {
      ViewsPartition(t', e);
    }
    forall e | e in QueryDeleted(t') ensures e.env.id != t[k].env.id {
      ViewsPartition(t', e);
    }
  }

  /** Inserting adds exactly the given row, live or not as it was built. */
  lemma InsertAddsOne<T>(t: Table<T>, e: Entity<T>)
    requires !e.env.isDeleted
    ensures |Query(Insert(t, e))| == |Query(t)| + 1
    ensures GetById(Insert(t, e), e.env.id).Some?
  {
    QueryOfAppend(t, [e]);
    assert Insert(t, e)[|t|] == e;
  }

  lemma {:induction false} QueryOfAppend<T>(t: Table<T>, es: Table<T>)
    ensures Query(t + es) == Query(t) + Query(es)
    decreases |t|
  {
    if |t| > 0 {
      QueryOfAppend(t[1..], es);
      assert (t + es)[1..] == t[1..] + es;
    } else {
      assert t + es == es;
    }
  }

  /** Rewriting a found row without touching its id, its flag or the rows
      before it keeps it the row found. */
  lemma {:induction false} FindActiveUnchangedPrefix<T>(t: Table<T>, t': Table<T>, id: Guid, k: nat)
    requires FindActive(t, id) == Some(k) && |t'| == |t|
    requires forall i :: 0 <= i < k ==> t'[i] == t[i]
    requires t'[k].env.id == id && !t'[k].env.isDeleted
    ensures FindActive(t', id) == Some(k)
    decreases k
  {
    if k > 0 {
      assert t'[0] == t[0];
      assert FindActive(t[1..], id) == Some(k - 1);
      forall i | 0 <= i < k - 1 ensures t'[1..][i] == t[1..][i] {
        assert t'[i + 1] == t[i + 1];
      }
      FindActiveUnchangedPrefix(t[1..], t'[1..], id, k - 1);
    }
  }
}
